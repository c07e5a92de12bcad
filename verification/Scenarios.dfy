/** The analysis against the enrichment maps alone, scenario by scenario, with every number written out.

  A `Trail` is a list of steps that the maps relate, from the target on; what the analysis lists is
  stated in terms of trails, without the search, its graph or its policy. */
module Scenarios {
  import opened Ordering
  import opened ImpactModel
  import opened Enrichment
  import opened Adjacency
  import opened Traversal
  import opened TraversalTheorems
  import opened TraversalBudgets
  import opened Engine
  import opened Responses

  /* ---- what a request grants ---- */

  /** The lesser of the two, when there is a cap. */
  predicate IsLeast(n: nat, base: nat, cap: Option<nat>) {
    n <= base && (cap.Some? ==> n <= cap.value) && (n == base || cap == Some(n))
  }

  datatype Allowance = Allowance(depth: nat, nodes: nat, edges: nat, candidates: nat)

  function Unrestricted(scenario: Scenario): Allowance {
    match scenario
    case ModifyBehavior => Allowance(3, 96, 256, 192)
    case SignatureChange => Allowance(4, 160, 512, 320)
    case Rename => Allowance(3, 128, 384, 256)
    case Delete => Allowance(4, 192, 640, 384)
  }

  /** Each limit is that of the scenario or the requested one, whichever is less; and without transitive
    results the depth is at most one. */
  predicate Grants(scenario: Scenario, params: Params, a: Allowance) {
    && IsLeast(a.depth, if params.includeTransitive then Unrestricted(scenario).depth else 1, params.maxTransitiveDepth)
    && IsLeast(a.nodes, Unrestricted(scenario).nodes, params.maxNodes)
    && IsLeast(a.edges, Unrestricted(scenario).edges, params.maxEdges)
    && IsLeast(a.candidates, Unrestricted(scenario).candidates, params.maxCandidates)
  }

  lemma PolicyIsGranted(scenario: Scenario, params: Params, a: Allowance)
    requires Grants(scenario, params, a)
    ensures var policy := ScenarioPolicy(scenario, params);
            && policy.maxDepth == a.depth && policy.maxNodes == a.nodes && policy.maxEdges == a.edges
            && policy.maxCandidates == a.candidates
            && policy.includeConsumerFiles == (scenario != ModifyBehavior)
            && policy.includeHeuristicTests == (scenario != Rename)
  {
  }

  lemma SearchIsGranted(inp: Inputs, params: Params, a: Allowance)
    requires Grants(inp.scenario, params, a)
    ensures var policy := Search(inp, params).policy;
            && policy.maxDepth == a.depth && policy.maxNodes == a.nodes && policy.maxEdges == a.edges
            && policy.maxCandidates == a.candidates
  {
    PolicyIsGranted(inp.scenario, params, a);
    hide ScenarioPolicy;
    hide Grants;
  }

  lemma SomethingIsGranted(scenario: Scenario, params: Params) returns (a: Allowance)
    ensures Grants(scenario, params, a)
  {
    var p := ScenarioPolicy(scenario, params);
    a := Allowance(p.maxDepth, p.maxNodes, p.maxEdges, p.maxCandidates);
  }

  /* ---- trails ---- */

  function Target(inp: Inputs): Node {
    match inp.target case SymbolTarget(id, _) => SymbolNode(id) case FileTarget(path) => FileNode(path)
  }

  /** A step that the maps relate to the node in this scenario, and that does not lead back to it. */
  ghost predicate LeadsAway(inp: Inputs, n: Node, s: Step) {
    Related(inp, inp.scenario != ModifyBehavior, inp.scenario != Rename, n, s) && s.entity.Key() != n.Key()
  }

  /** Where the search stands after `i` steps. */
  function Stop(inp: Inputs, c: seq<Step>, i: nat): Option<Node>
    requires i <= |c|
  {
    if i == 0 then Some(Target(inp)) else c[i - 1].next
  }

  ghost predicate Trail(inp: Inputs, c: seq<Step>) {
    c != [] && forall i :: 0 <= i < |c| ==> Stop(inp, c, i).Some? && LeadsAway(inp, Stop(inp, c, i).value, c[i])
  }

  /** Some trail of at most `within` steps leads to the entity, no step being worse than `worst`. */
  ghost predicate Leads(inp: Inputs, key: string, within: nat, worst: Tier) {
    exists c :: Trail(inp, c) && Tracks(c, key, within, worst)
  }

  predicate Tracks(c: seq<Step>, key: string, within: nat, worst: Tier) {
    && c != [] && c[|c| - 1].entity.Key() == key && |c| <= within
    && forall i :: 0 <= i < |c| ==> TierRank(c[i].tier) <= TierRank(worst)
  }

  /** The graph that the engine searches is that of the maps. */
  lemma GraphMeansRelation(inp: Inputs, params: Params, n: Node, s: Step)
    ensures s in RawGraph(inp, params).steps(n) <==> LeadsAway(inp, n, s)
    ensures RawGraph(inp, params).seed == Search(inp, params).seed == Target(inp)
  {
    var a := SomethingIsGranted(inp.scenario, params);
    PolicyIsGranted(inp.scenario, params, a);
    hide ExpandNode;
    hide Related;
    ExpansionMeansRelation(inp, ScenarioPolicy(inp.scenario, params), n, s);
  }

  lemma TrailsAreChains(inp: Inputs, params: Params, c: seq<Step>)
    ensures Trail(inp, c) <==> c != [] && IsChain(RawGraph(inp, params), c)
  {
    hide RawGraph;
    hide LeadsAway;
    var r := RawGraph(inp, params);
    forall n: Node, s: Step ensures (s in r.steps(n) <==> LeadsAway(inp, n, s)) && r.seed == Target(inp) {
      GraphMeansRelation(inp, params, n, s);
    }
    forall i | 0 <= i <= |c| ensures Stop(inp, c, i) == At(r, c, i) {
      assert r.seed == Target(inp) by {
        GraphMeansRelation(inp, params, Target(inp), Step(File(""), None, Certain, Seed, 0, []));
      }
    }
    if c != [] && IsChain(r, c) {
      forall i | 0 <= i < |c| ensures Stop(inp, c, i).Some? && LeadsAway(inp, Stop(inp, c, i).value, c[i]) {
        assert Leaves(r, c, i);
      }
    }
    if Trail(inp, c) {
      forall i | 0 <= i < |c| ensures Leaves(r, c, i) {}
    }
  }

  lemma LeadsAreChains(inp: Inputs, params: Params, key: string, within: nat, worst: Tier)
    ensures Leads(inp, key, within, worst) <==> HasChain(RawGraph(inp, params), key, within, worst)
  {
    hide RawGraph;
    hide Trail;
    hide IsChain;
    var r := RawGraph(inp, params);
    forall c: seq<Step>
      ensures Trail(inp, c) <==> c != [] && IsChain(r, c)
      ensures TierRank(WorstTier(c)) <= TierRank(worst)
              <==> forall i :: 0 <= i < |c| ==> TierRank(c[i].tier) <= TierRank(worst)
    {
      TrailsAreChains(inp, params, c);
      WorstTierIsWorst(c, worst);
    }
    if Leads(inp, key, within, worst) {
      var c :| Trail(inp, c) && Tracks(c, key, within, worst);
      assert EndsOn(r, c, key);
    }
    if HasChain(r, key, within, worst) {
      var c :| EndsOn(r, c, key) && |c| <= within && TierRank(WorstTier(c)) <= TierRank(worst);
      assert Trail(inp, c) && Tracks(c, key, within, worst);
    }
  }

  /* ---- what the analysis lists ---- */

  /** No budget stopped the run, and fewer candidates were found than the limit allows. */
  ghost predicate Complete(inp: Inputs, params: Params, response: Response) {
    response.stats.cutoffs == [] && |Final(Search(inp, params)).kept| <= params.limit
  }

  /** What a complete analysis lists, in terms of the maps: as Certain exactly what a trail of Certain steps
    within the granted depth leads to; and in all scenarios but ModifyBehavior exactly what any trail does. */
  lemma AnalysisFollowsTheMaps(inp: Inputs, params: Params, a: Allowance, response: Response, key: string)
    requires Answers(inp, params.limit, Final(Search(inp, params)), response) && Complete(inp, params, response)
    requires Grants(inp.scenario, params, a) && key != Target(inp).Key()
    ensures Lists(response, key, Certain) <==> Leads(inp, key, a.depth, Certain)
    ensures Lists(response, key, Possible) ==> Leads(inp, key, a.depth, Possible)
    ensures inp.scenario != ModifyBehavior ==> (Lists(response, key, Possible) <==> Leads(inp, key, a.depth, Possible))
  {
    hide Search;
    hide RawGraph;
    hide Grants;
    hide Lists;
    hide HasChain;
    hide Leads;
    hide Final;
    SearchIsGranted(inp, params, a);
    LeadsAreChains(inp, params, key, a.depth, Certain);
    LeadsAreChains(inp, params, key, a.depth, Possible);
    TargetIsSeed(inp, params);
    AnalysisIsExact(inp, params, response, key);
  }

  lemma TargetIsSeed(inp: Inputs, params: Params)
    ensures Search(inp, params).seed == Target(inp)
  {
  }

  /** A request for transitive results without caps, scenario by scenario. */
  lemma UncappedReach(inp: Inputs, params: Params, response: Response, key: string)
    requires Answers(inp, params.limit, Final(Search(inp, params)), response) && Complete(inp, params, response)
    requires params.includeTransitive && params.maxTransitiveDepth == None && key != Target(inp).Key()
    ensures inp.scenario == Rename ==> (Lists(response, key, Possible) <==> Leads(inp, key, 3, Possible))
    ensures inp.scenario == SignatureChange || inp.scenario == Delete ==>
              (Lists(response, key, Possible) <==> Leads(inp, key, 4, Possible))
    ensures inp.scenario == ModifyBehavior ==> (Lists(response, key, Certain) <==> Leads(inp, key, 3, Certain))
  {
    var a := SomethingIsGranted(inp.scenario, params);
    assert a.depth == Unrestricted(inp.scenario).depth;
    hide Search;
    hide Grants;
    hide Lists;
    hide Leads;
    hide Final;
    AnalysisFollowsTheMaps(inp, params, a, response, key);
  }

  /** A run is stopped only where a granted limit is used up, and then says which; edges are counted
    before candidates, of which there is one more: the target. */
  lemma StoppedOnlyAtLimits(inp: Inputs, params: Params, a: Allowance)
    requires Grants(inp.scenario, params, a)
    ensures var stats := Final(Search(inp, params)).stats;
            && stats.nodes <= a.nodes && stats.edges <= a.edges && stats.depth <= a.depth
            && stats.candidates == stats.edges + 1 <= Max(1, a.candidates)
            && (stats.cutoffs == []
                || (stats.cutoffs == [NodesVisited] && stats.nodes == a.nodes)
                || (stats.cutoffs == [EdgesTraversed] && stats.edges == a.edges)
                || (stats.cutoffs == [CandidatesConsidered] && stats.edges < a.edges
                    && stats.candidates == Max(1, a.candidates)))
  {
    hide Search;
    hide Final;
    hide Grants;
    SearchIsGranted(inp, params, a);
    SearchIsWellFormed(inp, params);
    RunStaysWithinBudget(Search(inp, params));
  }

  /* ---- what each hit shows ---- */

  predicate IsTarget(inp: Inputs, e: Entity) {
    match inp.target
    case FileTarget(path) => e == File(path)
    case SymbolTarget(id, _) =>
      && e.Symbol? && e.symbolId == id && Names(inp.plan, id, e.displayName)
      && e.path == if id in inp.plan.symbolToFile then inp.plan.symbolToFile[id] else ""
  }

  /** The edges of the evidence are the steps of the trail, from the target on. */
  predicate Shows(inp: Inputs, path: ReasonPath, c: seq<Step>) {
    |path| == |c| && forall i :: 0 <= i < |c| ==> EdgeShows(inp, path, c, i)
  }

  predicate EdgeShows(inp: Inputs, path: ReasonPath, c: seq<Step>, i: nat)
    requires i < |c| == |path|
  {
    && path[i].kind == c[i].reason && path[i].to == c[i].entity && path[i].metadata == c[i].metadata
    && (if i == 0 then IsTarget(inp, path[i].from) else path[i].from == c[i - 1].entity)
  }

  lemma EvidenceShows(p: Problem, inp: Inputs, c: seq<Step>)
    requires IsTarget(inp, p.seedEntity)
    ensures Shows(inp, EvidenceOf(p, c), c)
  {
    hide IsTarget;
    var path := EvidenceOf(p, c);
    forall i | 0 <= i < |c| ensures EdgeShows(inp, path, c, i) {
      assert path[i].from == if i == 0 then p.seedEntity else c[i - 1].entity;
    }
  }

  lemma WorstTierOfTrail(c: seq<Step>)
    ensures forall worst: Tier :: TierRank(WorstTier(c)) <= TierRank(worst)
              <==> forall k :: 0 <= k < |c| ==> TierRank(c[k].tier) <= TierRank(worst)
  {
    forall worst: Tier ensures TierRank(WorstTier(c)) <= TierRank(worst)
                               <==> forall k :: 0 <= k < |c| ==> TierRank(c[k].tier) <= TierRank(worst)
    {
      WorstTierIsWorst(c, worst);
    }
  }

  /** Every listed hit but the target rests on a trail of that depth, and shows its worst tier, its last
    reason and entity, its score, and its steps as evidence. */
  lemma HitsFollowTheMaps(inp: Inputs, params: Params, a: Allowance, response: Response, i: nat) returns (c: seq<Step>)
    requires Answers(inp, params.limit, Final(Search(inp, params)), response) && Grants(inp.scenario, params, a)
    requires i < |Hits(response)| && Hits(response)[i].entity.Key() != Target(inp).Key()
    ensures var h := Hits(response)[i];
            && Trail(inp, c) && |c| == h.depth <= a.depth && (h.direct <==> |c| == 1)
            && h.reason == c[|c| - 1].reason && h.entity == c[|c| - 1].entity && h.rank == i + 1
            && (forall worst: Tier :: TierRank(h.tier) <= TierRank(worst)
                  <==> forall k :: 0 <= k < |c| ==> TierRank(c[k].tier) <= TierRank(worst))
            && IsPenalized(h.score, c[|c| - 1].score, |c| - 1)
            && (if inp.includeReasonPaths then |h.reasonPaths| == 1 && Shows(inp, h.reasonPaths[0], c)
                else h.reasonPaths == [])
  {
    hide Search;
    hide RawGraph;
    hide Final;
    hide Grants;
    hide Trail;
    hide IsChain;
    hide IsTarget;
    hide WellFormed;
    hide IsPenalized;
    hide Shows;
    hide EvidenceOf;
    hide Serves;
    hide TierRank;
    hide Hits;
    hide Answers;
    SearchIsWellFormed(inp, params);
    SeedIsTarget(inp, params);
    var p, r := Search(inp, params), RawGraph(inp, params);
    SearchIsGranted(inp, params, a);
    SearchServes(inp, params);
    c := ListedHitsHaveEvidence(p, r, inp.scenario, inp, params.limit, response, i);
    TrailsAreChains(inp, params, c);
    ListedIsKept(p, inp, params.limit, response, i);
    EvidenceShows(p, inp, c);
    WorstTierOfTrail(c);
  }

  lemma SeedIsTarget(inp: Inputs, params: Params)
    ensures Search(inp, params).seed == Target(inp) && IsTarget(inp, Search(inp, params).seedEntity)
  {
  }

  /** The target itself is listed first, unless the limit is zero. */
  lemma TargetComesFirst(inp: Inputs, params: Params, response: Response)
    requires Answers(inp, params.limit, Final(Search(inp, params)), response) && params.limit > 0
    ensures Hits(response) != []
    ensures var h := Hits(response)[0];
            && IsTarget(inp, h.entity) && h.reason == Seed && h.tier == Certain && h.depth == 0 && h.direct
            && h.score == 1000 && h.rank == 1
  {
    hide Search;
    hide IsTarget;
    hide WellFormed;
    hide Final;
    SearchIsWellFormed(inp, params);
    SeedIsTarget(inp, params);
    SeedComesFirst(Search(inp, params), inp, params.limit, response);
  }

  /* ---- tests found by their path ---- */

  /** How surely a test found by its path alone is affected; under Rename such tests are not considered. */
  function AffinityTier(scenario: Scenario): Option<Tier> {
    match scenario
    case ModifyBehavior => Some(Possible)
    case SignatureChange => Some(Likely)
    case Rename => None
    case Delete => Some(Possible)
  }

  /** Outside Rename, a complete analysis of a file lists the tests found by their path alone, at least as
    surely as that; and no affinity step is any surer. */
  lemma AffineTestsAreListed(inp: Inputs, params: Params, a: Allowance, response: Response, t: Association)
    requires Answers(inp, params.limit, Final(Search(inp, params)), response) && Complete(inp, params, response)
    requires Grants(inp.scenario, params, a) && a.depth > 0 && inp.target.FileTarget?
    requires Has(inp.plan.testsByFile, inp.target.path, t) && t.evidence == PathHeuristic
    requires AffinityTier(inp.scenario).Some?
    ensures Lists(response, Test(t.testPath, "", t.owner).Key(), AffinityTier(inp.scenario).value)
  {
    hide Search;
    hide RawGraph;
    hide Final;
    hide Grants;
    hide LeadsAway;
    hide AffinityTier;
    hide Lists;
    hide Serves;
    hide Target;
    hide Entity.Key;
    hide Node.Key;
    var s := AffinityStep(inp, t);
    GraphMeansRelation(inp, params, Target(inp), s);
    SearchIsGranted(inp, params, a);
    SearchServes(inp, params);
    OneStepIsListed(Search(inp, params), RawGraph(inp, params), inp.scenario, inp, params.limit, response, s);
  }

  lemma AffinityStep(inp: Inputs, t: Association) returns (s: Step)
    requires inp.target.FileTarget? && Has(inp.plan.testsByFile, inp.target.path, t) && t.evidence == PathHeuristic
    requires AffinityTier(inp.scenario).Some?
    ensures LeadsAway(inp, Target(inp), s) && s.entity.Key() == Test(t.testPath, "", t.owner).Key()
    ensures s.tier == AffinityTier(inp.scenario).value && s.reason == TestAffinity
    ensures s.entity.Key() != Target(inp).Key()
  {
    s := Step(TestEntity(inp.plan, t.testPath, t.owner), None, AffinityTier(inp.scenario).value, TestAffinity,
              420 + TestBonus(inp, t.testPath), AssociationMetadata(t, "pathheuristic", None));
    assert Vouches(inp, true, None, t, s) by { hide AssociationMetadata; hide FileName; }
    assert s.entity.Key()[0] == 't' && Target(inp).Key()[0] == 'f';
  }

  /** Conversely, any step by affinity has exactly that tier, in any scenario. */
  lemma AffinityStepsHaveTier(inp: Inputs, n: Node, s: Step)
    requires LeadsAway(inp, n, s) && s.reason == TestAffinity
    ensures AffinityTier(inp.scenario) == Some(s.tier) && s.entity.Test? && s.next == None
  {
    hide LeadsAway;
    hide ExpandNode;
    var params := Params(0, true, None, None, None, None);
    GraphMeansRelation(inp, params, n, s);
    StepsObeyRules(inp, ScenarioPolicy(inp.scenario, params), n, s);
    var a := SomethingIsGranted(inp.scenario, params);
    PolicyIsGranted(inp.scenario, params, a);
  }
}
