/** The impact engine: the traversal over the steps of the enrichment maps, its analysis loop,
  and the run theorems stated over raw expansion steps. */
module Engine {
  import opened Ordering
  import opened ImpactModel
  import opened PathDistance
  import opened Enrichment
  import opened StepOrder
  import opened Traversal
  import opened TraversalInvariants
  import opened TraversalTheorems
  import opened TraversalBudgets
  import opened Ranking

  function Relevance(inp: Inputs): Entity -> nat {
    (e: Entity) => LexicalPathDistance(inp.target.path, e.AnchorPath())
  }

  function OrderedAt(inp: Inputs, policy: Policy): Node -> seq<Step> {
    (n: Node) => OrderedSteps(ExpandNode(inp, policy, n))
  }

  function RawAt(inp: Inputs, policy: Policy): Node -> seq<Step> {
    (n: Node) => ExpandNode(inp, policy, n)
  }

  /** The search the engine runs: at each node the expansion steps, sorted and deduplicated. */
  function Search(inp: Inputs, params: Params): Problem {
    var policy := ScenarioPolicy(inp.scenario, params);
    Problem(OrderedAt(inp, policy), Relevance(inp), SeedNode(inp), SeedEntity(inp), policy)
  }

  /** The same graph before sorting and deduplication; its chains are what hits are judged by. */
  function RawGraph(inp: Inputs, params: Params): Problem {
    Search(inp, params).(steps := RawAt(inp, ScenarioPolicy(inp.scenario, params)))
  }

  /* ---- what makes a search one of a scenario ---- */

  /** The step `t` goes where `s` does and is no worse. */
  predicate StandsFor(t: Step, s: Step) {
    TierRank(t.tier) <= TierRank(s.tier) && t.next == s.next && t.entity.Key() == s.entity.Key()
  }

  /** Some step the search considers goes to the same place and is no worse. */
  ghost predicate Represented(p: Problem, n: Node, s: Step) {
    exists t :: t in p.steps(n) && StandsFor(t, s)
  }

  /** A raw step that obeys the rules of the scenario. */
  predicate Allowed(r: Problem, scenario: Scenario, n: Node, s: Step) {
    s in r.steps(n) && ObeysRules(scenario, BasePolicy(scenario).includeHeuristicTests, s)
  }

  /** The search `p` considers raw steps of `r` only, represents them all, and its steps obey the
    rules of the scenario. */
  ghost predicate Serves(p: Problem, r: Problem, scenario: Scenario) {
    && WellFormed(p) && p.seed == r.seed
    && (forall n: Node, s: Step :: s in p.steps(n) ==> Allowed(r, scenario, n, s))
    && (forall n: Node, s: Step {:trigger Represented(p, n, s)} :: s in r.steps(n) ==> Represented(p, n, s))
  }

  lemma StepRules(inp: Inputs, params: Params, n: Node, s: Step)
    requires s in Search(inp, params).steps(n)
    ensures Allowed(RawGraph(inp, params), inp.scenario, n, s)
    ensures s.reason != Seed && (s.next.Some? ==> s.next.value.Key() == s.entity.Key())
  {
    var policy := ScenarioPolicy(inp.scenario, params);
    OrderedStepIsRaw(ExpandNode(inp, policy, n), s);
    StepsObeyRules(inp, policy, n, s);
  }

  lemma RepresentativeOf(inp: Inputs, params: Params, n: Node, s: Step)
    requires s in RawGraph(inp, params).steps(n)
    ensures Represented(Search(inp, params), n, s)
  {
    var r := RawStepIsRepresented(RawGraph(inp, params).steps(n), s);
    assert r in Search(inp, params).steps(n);
  }

  lemma SeedsMatch(inp: Inputs, params: Params)
    ensures Search(inp, params).seed == RawGraph(inp, params).seed
    ensures Search(inp, params).seed.Key() == Search(inp, params).seedEntity.Key()
  {
  }

  /** The engine's own search serves its scenario. */
  lemma SearchServes(inp: Inputs, params: Params)
    ensures Serves(Search(inp, params), RawGraph(inp, params), inp.scenario)
  {
    hide Search;
    hide RawGraph;
    hide BasePolicy;
    var p, r := Search(inp, params), RawGraph(inp, params);
    SeedsMatch(inp, params);
    forall n: Node, s: Step | s in p.steps(n)
      ensures Allowed(r, inp.scenario, n, s) && s.reason != Seed
      ensures s.next.Some? ==> s.next.value.Key() == s.entity.Key()
    {
      StepRules(inp, params, n, s);
    }
    forall n: Node, s: Step | s in r.steps(n) ensures Represented(p, n, s) {
      RepresentativeOf(inp, params, n, s);
    }
  }

  lemma NodeTiers(p: Problem, r: Problem, scenario: Scenario)
    requires Serves(p, r, scenario)
    ensures NodeStepsWithin(p, Likely)
    ensures scenario != ModifyBehavior ==> NodeStepsWithin(p, Certain)
  {
  }

  lemma SearchIsWellFormed(inp: Inputs, params: Params)
    ensures WellFormed(Search(inp, params)) && NodeStepsWithin(Search(inp, params), Likely)
  {
    hide Search;
    hide RawGraph;
    SearchServes(inp, params);
    NodeTiers(Search(inp, params), RawGraph(inp, params), inp.scenario);
  }

  /* ---- raw chains and ordered chains ---- */

  lemma OrderedChainIsRaw(p: Problem, r: Problem, scenario: Scenario, c: seq<Step>)
    requires Serves(p, r, scenario) && IsChain(p, c)
    ensures IsChain(r, c)
  {
    forall i | 0 <= i < |c| ensures Leaves(r, c, i) {
      assert Leaves(p, c, i) && At(p, c, i) == At(r, c, i);
    }
  }

  lemma SeedOf(p: Problem, r: Problem, scenario: Scenario)
    requires Serves(p, r, scenario)
    ensures p.seed == r.seed
  {
  }

  lemma Representative(p: Problem, r: Problem, scenario: Scenario, n: Node, s: Step) returns (t: Step)
    requires Serves(p, r, scenario) && s in r.steps(n)
    ensures t in p.steps(n) && StandsFor(t, s)
  {
    assert Represented(p, n, s);
    t :| t in p.steps(n) && StandsFor(t, s);
  }

  /** Every raw chain has a companion in the search to the same place that is no worse. */
  lemma {:induction false} RawChainIsOrdered(p: Problem, r: Problem, scenario: Scenario, c: seq<Step>)
    returns (d: seq<Step>)
    requires Serves(p, r, scenario) && IsChain(r, c)
    ensures IsChain(p, d) && |d| == |c| && At(p, d, |d|) == At(r, c, |c|)
    ensures TierRank(WorstTier(d)) <= TierRank(WorstTier(c))
    ensures c != [] ==> Last(d).entity.Key() == Last(c).entity.Key()
    decreases |c|
  {
    hide IsChain;
    hide Serves;
    SeedOf(p, r, scenario);
    if c == [] {
      d := [];
      EmptyChain(p);
    } else {
      PrefixChain(r, c);
      var n := At(r, c, |c| - 1).value;
      var front := RawChainIsOrdered(p, r, scenario, c[..|c| - 1]);
      var t := Representative(p, r, scenario, n, Last(c));
      ExtendChain(p, front, t);
      d := front + [t];
    }
  }

  lemma EmptyChain(p: Problem)
    ensures IsChain(p, [])
  {
  }

  ghost predicate HasChain(p: Problem, key: string, within: nat, worst: Tier) {
    exists c :: EndsOn(p, c, key) && |c| <= within && TierRank(WorstTier(c)) <= TierRank(worst)
  }

  lemma ChainsAgree(p: Problem, r: Problem, scenario: Scenario, key: string, within: nat, worst: Tier)
    requires Serves(p, r, scenario)
    ensures HasChain(r, key, within, worst) <==> HasChain(p, key, within, worst)
  {
    if HasChain(r, key, within, worst) {
      var c :| EndsOn(r, c, key) && |c| <= within && TierRank(WorstTier(c)) <= TierRank(worst);
      var d := RawChainIsOrdered(p, r, scenario, c);
      assert EndsOn(p, d, key);
    }
    if HasChain(p, key, within, worst) {
      var c :| EndsOn(p, c, key) && |c| <= within && TierRank(WorstTier(c)) <= TierRank(worst);
      OrderedChainIsRaw(p, r, scenario, c);
      assert EndsOn(r, c, key);
    }
  }

  /* ---- run theorems over raw chains ---- */

  /** Every hit but the seed rests on a raw chain from the seed, edge by edge, without cycles. */
  lemma HitHasEvidence(p: Problem, r: Problem, scenario: Scenario, key: string) returns (c: seq<Step>)
    requires Serves(p, r, scenario) && key in Final(p).kept && key != p.seed.Key()
    ensures EndsOn(r, c, key) && Supports(p, c, Final(p).kept[key])
    ensures SimplePath(p.seed.Key(), Final(p).kept[key].reasonPaths[0])
  {
    c := HitsAreSound(p, key);
    OrderedChainIsRaw(p, r, scenario, c);
  }

  /** In every scenario: Certain exactly when an all-Certain raw chain within the cap leads there ... */
  lemma CertainHits(p: Problem, r: Problem, scenario: Scenario, key: string)
    requires Serves(p, r, scenario) && Drained(p) && key != p.seed.Key()
    ensures (key in Final(p).kept && Final(p).kept[key].tier == Certain)
            <==> HasChain(r, key, p.policy.maxDepth, Certain)
  {
    CertainTierIsExact(p, key);
    ChainsAgree(p, r, scenario, key, p.policy.maxDepth, Certain);
  }

  /** ... and its depth is the length of the shortest one. */
  lemma CertainDepths(p: Problem, r: Problem, scenario: Scenario, key: string, n: nat)
    requires Serves(p, r, scenario) && Drained(p) && key != p.seed.Key() && n <= p.policy.maxDepth
    requires key in Final(p).kept && Final(p).kept[key].tier == Certain
    ensures HasChain(r, key, n, Certain) <==> Final(p).kept[key].depth <= n
  {
    CertainDepthIsShortest(p, key);
    ChainsAgree(p, r, scenario, key, n, Certain);
  }

  /** Where consumer files are Certain, nothing within the cap is missed ... */
  lemma ReachIsExact(p: Problem, r: Problem, scenario: Scenario, key: string)
    requires Serves(p, r, scenario) && scenario != ModifyBehavior && Drained(p) && key != p.seed.Key()
    ensures key in Final(p).kept <==> HasChain(r, key, p.policy.maxDepth, Possible)
  {
    NodeTiers(p, r, scenario);
    CompleteWhenNodesAreCertain(p, key);
    ChainsAgree(p, r, scenario, key, p.policy.maxDepth, Possible);
  }

  /** ... and a symbol or a file is Certain, at the least length of any chain. */
  lemma ReachDepths(p: Problem, r: Problem, scenario: Scenario, key: string, n: nat)
    requires Serves(p, r, scenario) && scenario != ModifyBehavior && Drained(p) && key != p.seed.Key()
    requires key in Final(p).kept && (Final(p).kept[key].entity.Symbol? || Final(p).kept[key].entity.File?)
    requires n <= p.policy.maxDepth
    ensures Final(p).kept[key].tier == Certain
    ensures HasChain(r, key, n, Possible) <==> Final(p).kept[key].depth <= n
  {
    hide Run;
    var h := Final(p).kept[key];
    NodeTiers(p, r, scenario);
    var d := HitsAreSound(p, key);
    ChainToNodeEntityIsCertain(p, r, scenario, d, h.entity);
    ChainsAgree(p, r, scenario, key, n, Possible);
    if HasChain(p, key, n, Possible) {
      var c :| EndsOn(p, c, key) && |c| <= n && TierRank(WorstTier(c)) <= TierRank(Possible);
      ChainToNodeEntityIsCertain(p, r, scenario, c, h.entity);
      BestOfAllChains(p, key, c);
    }
  }

  /** Chains to symbols and files are Certain outside ModifyBehavior. */
  lemma ChainToNodeEntityIsCertain(p: Problem, r: Problem, scenario: Scenario, c: seq<Step>, e: Entity)
    requires Serves(p, r, scenario) && scenario != ModifyBehavior && EndsOn(p, c, e.Key()) && (e.Symbol? || e.File?)
    ensures WorstTier(c) == Certain
  {
    NodeTiers(p, r, scenario);
    PrefixChain(p, c);
    ChainTierWithin(p, c[..|c| - 1], Certain);
    EqualKeysEqualKinds(Last(c).entity, e);
  }

  /** If the depth cap bound nowhere: hit exactly when any raw chain leads there, in the best tier
    that any chain gives. */
  lemma MinimaxTiers(p: Problem, r: Problem, scenario: Scenario, key: string)
    requires Serves(p, r, scenario) && Drained(p) && NoBestAtCap(p) && key != p.seed.Key()
    ensures key in Final(p).kept <==> exists c :: EndsOn(r, c, key)
    ensures key in Final(p).kept ==>
              && (exists c :: EndsOn(r, c, key) && WorstTier(c) == Final(p).kept[key].tier)
              && forall c :: EndsOn(r, c, key) ==> TierRank(Final(p).kept[key].tier) <= TierRank(WorstTier(c))
  {
    hide Run;
    TiersAreMinimax(p, key);
    forall c | EndsOn(r, c, key)
      ensures key in Final(p).kept && TierRank(Final(p).kept[key].tier) <= TierRank(WorstTier(c))
    {
      var d := RawChainIsOrdered(p, r, scenario, c);
      assert EndsOn(p, d, key);
    }
    if key in Final(p).kept {
      var c :| EndsOn(p, c, key) && WorstTier(c) == Final(p).kept[key].tier;
      OrderedChainIsRaw(p, r, scenario, c);
      assert EndsOn(r, c, key);
    }
  }

  /** A TestAffinity step can only end a chain, and under Rename there is none. */
  lemma AffinityOnlyLast(p: Problem, r: Problem, scenario: Scenario, c: seq<Step>, i: nat)
    requires Serves(p, r, scenario) && IsChain(p, c) && i < |c| && (scenario == Rename || i < |c| - 1)
    ensures c[i].reason != TestAffinity
  {
    assert Leaves(p, c, i);
    assert i < |c| - 1 ==> Leaves(p, c, i + 1);
  }

  lemma LastStepRules(p: Problem, r: Problem, scenario: Scenario, c: seq<Step>)
    requires Serves(p, r, scenario) && IsChain(p, c) && c != []
    ensures ObeysRules(scenario, BasePolicy(scenario).includeHeuristicTests, Last(c))
    ensures WorstTier(c) == Possible ==> Last(c).tier == Possible
    ensures Last(c).tier == Likely ==> WorstTier(c) == Likely
  {
    NodeTiers(p, r, scenario);
    PrefixChain(p, c);
    ChainTierWithin(p, c[..|c| - 1], Likely);
  }

  /** Rules on tiers over whole runs. */
  lemma TierRules(p: Problem, r: Problem, scenario: Scenario, key: string)
    requires Serves(p, r, scenario) && key in Final(p).kept && key != p.seed.Key()
    ensures var h := Final(p).kept[key];
            && (h.tier == Possible ==>
                  h.entity.Test? && h.reason == TestAffinity && (scenario == ModifyBehavior || scenario == Delete))
            && (h.entity.Package? ==> h.tier == Likely)
            && |h.reasonPaths| == 1
            && (scenario == Rename ==>
                  forall i :: 0 <= i < |h.reasonPaths[0]| ==> h.reasonPaths[0][i].kind != TestAffinity)
            && (forall i :: 0 <= i < |h.reasonPaths[0]| - 1 ==> h.reasonPaths[0][i].kind != TestAffinity)
  {
    hide Run;
    var c := HitsAreSound(p, key);
    LastStepRules(p, r, scenario, c);
    forall i | 0 <= i < |c| && (scenario == Rename || i < |c| - 1) ensures c[i].reason != TestAffinity {
      AffinityOnlyLast(p, r, scenario, c, i);
    }
  }

  /** No frame of a run is ever Possible: visited, still queued, or the best of its node. */
  lemma FramesAreNotPossible(p: Problem, r: Problem, scenario: Scenario, f: Frame)
    requires Serves(p, r, scenario) && OfRun(p, f)
    ensures f.tier != Possible
    ensures scenario != ModifyBehavior ==> f.tier == Certain
  {
    NodeTiers(p, r, scenario);
    FramesWithin(p, Likely, f);
    if scenario != ModifyBehavior {
      FramesWithin(p, Certain, f);
    }
  }

  /** No node is visited more than twice ... */
  lemma VisitRules(p: Problem, r: Problem, scenario: Scenario, i: nat, j: nat, k: nat)
    requires Serves(p, r, scenario) && i < j < k < |AllVisits(p)|
    ensures !(AllVisits(p)[i].node == AllVisits(p)[j].node == AllVisits(p)[k].node)
  {
    NodeTiers(p, r, scenario);
    AtMostTwice(p, i, j, k);
  }

  /** ... and outside ModifyBehavior none more than once. */
  lemma VisitOnce(p: Problem, r: Problem, scenario: Scenario, i: nat, j: nat)
    requires Serves(p, r, scenario) && scenario != ModifyBehavior && i < j < |AllVisits(p)|
    ensures AllVisits(p)[i].node != AllVisits(p)[j].node
  {
    NodeTiers(p, r, scenario);
    AtMostOnce(p, i, j);
  }

  predicate AtMost(n: nat, cap: Option<nat>) {
    cap.Some? ==> n <= cap.value
  }

  lemma PolicyWithinLimits(scenario: Scenario, params: Params)
    ensures var policy, base := ScenarioPolicy(scenario, params), BasePolicy(scenario);
            && policy.maxNodes <= base.maxNodes && AtMost(policy.maxNodes, params.maxNodes)
            && policy.maxEdges <= base.maxEdges && AtMost(policy.maxEdges, params.maxEdges)
            && policy.maxCandidates <= base.maxCandidates && AtMost(policy.maxCandidates, params.maxCandidates)
            && policy.maxDepth <= base.maxDepth && AtMost(policy.maxDepth, params.maxTransitiveDepth)
            && (!params.includeTransitive ==> policy.maxDepth <= 1)
  {
  }

  lemma HitsWithinCap(p: Problem, key: string)
    requires WellFormed(p) && key in Final(p).kept
    ensures Final(p).kept[key].depth <= p.policy.maxDepth
    ensures p.policy.maxDepth <= 1 ==> Final(p).kept[key].direct
  {
    hide Run;
    FinalInv(p);
    if key != p.seed.Key() {
      var c := HitsAreSound(p, key);
    }
  }

  /** The run respects what the request and the scenario allow; without transitive results every
    hit is direct. */
  lemma RequestIsRespected(inp: Inputs, params: Params)
    ensures var s, base := Final(Search(inp, params)), BasePolicy(inp.scenario);
            && WithinBudget(Search(inp, params), s)
            && s.stats.nodes <= base.maxNodes && AtMost(s.stats.nodes, params.maxNodes)
            && s.stats.edges <= base.maxEdges && AtMost(s.stats.edges, params.maxEdges)
            && s.stats.candidates <= Max(1, base.maxCandidates)
            && (params.maxCandidates.Some? ==> s.stats.candidates <= Max(1, params.maxCandidates.value))
            && s.stats.nodes <= 2 * |s.best|
            && forall k :: k in s.kept ==>
                 && s.kept[k].depth <= base.maxDepth && AtMost(s.kept[k].depth, params.maxTransitiveDepth)
                 && (!params.includeTransitive ==> s.kept[k].direct)
  {
    PolicyWithinLimits(inp.scenario, params);
    assert Search(inp, params).policy == ScenarioPolicy(inp.scenario, params);
    hide Search;
    hide ScenarioPolicy;
    hide BasePolicy;
    hide Final;
    var p := Search(inp, params);
    SearchIsWellFormed(inp, params);
    RunStaysWithinBudget(p);
    VisitsBoundedByNodes(p);
    forall k | k in Final(p).kept
      ensures Final(p).kept[k].depth <= p.policy.maxDepth && (p.policy.maxDepth <= 1 ==> Final(p).kept[k].direct)
    {
      HitsWithinCap(p, k);
    }
  }

  /* ---- test relevance ---- */

  function EvidenceRelevance(e: Evidence): nat {
    match e case ReferencesSymbol => 0 case ImportsFile => 1 case PathHeuristic => 3
  }

  lemma EvidenceIsRecorded(inp: Inputs, policy: Policy, scope: Option<string>, a: Association, s: Step)
    requires s in TestSteps(inp, policy, scope, a)
    ensures MetaGet(s.metadata, "evidence") == Some(EvidenceText(a.evidence))
  {
    var base := [("detail", a.detail), ("evidence", EvidenceText(a.evidence)), ("test_path", a.testPath)];
    assert MetaGet(base[1..], "evidence") == Some(EvidenceText(a.evidence));
    assert "owner_symbol_id" != "evidence" && "scope" != "evidence";
    var owned := if a.owner.Some? then MetaInsert(base, "owner_symbol_id", a.owner.value) else base;
    if a.owner.Some? {
      InsertKeepsOthers(base, "owner_symbol_id", a.owner.value, "evidence");
    }
    if scope.Some? {
      InsertKeepsOthers(owned, "scope", scope.value, "evidence");
    }
  }

  /** The relevance of an associated test is read back from the metadata of its last edge: symbol
    references first, then imports, then path heuristics, whatever else was inserted. */
  lemma AssociationRelevance(p: Problem, inp: Inputs, policy: Policy, scope: Option<string>, a: Association, f: Frame,
                             s: Step)
    requires s in TestSteps(inp, policy, scope, a)
    ensures OfferOf(p, f, s).testRelevance == EvidenceRelevance(a.evidence)
  {
    EvidenceIsRecorded(inp, policy, scope, a, s);
    assert s.entity.Test? && s.reason == (if a.evidence == PathHeuristic then TestAffinity else TestReference);
    hide TestSteps;
    hide MetaGet;
    var path := Extend(f, s);
    assert path[|path| - 1].metadata == s.metadata;
  }

  /* ---- the analysis loop ---- */

  datatype Response = Response(summary: Summary, stats: Stats, groups: seq<Group>)

  ghost predicate Answers(inp: Inputs, limit: nat, final: State, response: Response) {
    exists ranking :: IsRanking(final.kept, ranking) && AnswersWith(inp, limit, final, response, ranking)
  }

  ghost predicate AnswersWith(inp: Inputs, limit: nat, final: State, response: Response, ranking: seq<Candidate>) {
    var hits := RankedHits(Truncated(ranking, limit), inp.includeReasonPaths);
    response.stats == final.stats && IsGrouping(response.groups, hits) && response.summary == EngineSummary(hits)
  }

  /** The limits and the final search state fix the response. */
  lemma AnswerIsUnique(inp: Inputs, limit: nat, final: State, a: Response, b: Response)
    requires Answers(inp, limit, final, a) && Answers(inp, limit, final, b)
    ensures a == b
  {
    var x :| IsRanking(final.kept, x) && AnswersWith(inp, limit, final, a, x);
    var y :| IsRanking(final.kept, y) && AnswersWith(inp, limit, final, b, y);
    RankingIsUnique(final.kept, x, y);
    GroupingIsUnique(a.groups, b.groups, RankedHits(Truncated(x, limit), inp.includeReasonPaths));
  }

  ghost predicate EntitiesMatch(queue: seq<Frame>) {
    forall f :: f in queue ==> f.entity.Key() == f.node.Key()
  }

  /** The inner loop over the ordered steps of one frame. */
  method TraverseSteps(inp: Inputs, params: Params, frame: Frame, steps: seq<Step>, start: State)
    returns (end: State, cutoff: bool)
    requires EntitiesMatch(start.queue) && forall s :: s in steps ==> s in Search(inp, params).steps(frame.node)
    ensures (end, cutoff) == TakeSteps(Search(inp, params), frame, steps, start)
    ensures EntitiesMatch(end.queue)
  {
    hide Search;
    hide FrameLess;
    hide AddCandidate;
    hide OfferOf;
    hide Extend;
    hide DepthPenalty;
    var p := Search(inp, params);
    var State(queue, best, kept, stats) := start;
    SearchIsWellFormed(inp, params);
    cutoff := false;
    var i := 0;
    while i < |steps|
      invariant 0 <= i <= |steps| && !cutoff && EntitiesMatch(queue)
      invariant TakeSteps(p, frame, steps, start) == TakeSteps(p, frame, steps[i..], State(queue, best, kept, stats))
    {
      var step := steps[i];
      ghost var before := State(queue, best, kept, stats);
      assert steps[i..][0] == step && steps[i..][1..] == steps[i + 1..];
      if stats.edges >= p.policy.maxEdges {
        stats := RecordCutoff(stats, EdgesTraversed);
        cutoff := true;
        break;
      }
      if stats.candidates >= p.policy.maxCandidates {
        stats := RecordCutoff(stats, CandidatesConsidered);
        cutoff := true;
        break;
      }
      stats := stats.(edges := stats.edges + 1,
                      candidates := stats.candidates + 1,
                      depth := Max(stats.depth, frame.depth + 1));
      if step.entity.Key() != p.seedEntity.Key() {
        kept := AddCandidate(kept, OfferOf(p, frame, step));
      }
      if step.next.Some? {
        var next := NextFrame(frame, step);
        var key := next.node.Key();
        assert step in p.steps(frame.node);
        assert next.entity.Key() == key;
        if key !in best || FrameLess(next, best[key]) {
          best := best[key := next];
          queue := queue + [next];
        }
      }
      assert State(queue, best, kept, stats) == TakeStep(p, frame, step, before);
      i := i + 1;
    }
    assert i == |steps| ==> steps[i..] == [];
    end := State(queue, best, kept, stats);
  }

  /** `analyze_inputs`: the outer loop, then ranking, truncation, counting and grouping. */
  method AnalyzeInputs(inp: Inputs, params: Params) returns (response: Response)
    ensures Answers(inp, params.limit, Final(Search(inp, params)), response)
  {
    hide ExpandNode;
    hide OrderedSteps;
    hide ScenarioPolicy;
    hide TakeSteps;
    hide SameFrameKey;
    var p := Search(inp, params);
    var policy := ScenarioPolicy(inp.scenario, params);
    var state := Init(p);
    SearchIsWellFormed(inp, params);
    while state.queue != []
      invariant EntitiesMatch(state.queue)
      invariant Run(p, Init(p)) == Run(p, state)
      decreases Measure(p, state)
    {
      var frame := state.queue[0];
      IterateMeasure(p, state);
      assert forall f :: f in state.queue[1..] ==> f in state.queue;
      ghost var before := state;
      if Stale(state, frame) {
        state := state.(queue := state.queue[1..]);
        continue;
      }
      if state.stats.nodes >= policy.maxNodes {
        state := state.(queue := state.queue[1..], stats := RecordCutoff(state.stats, NodesVisited));
        break;
      }
      state := Visit(state);
      if frame.depth >= policy.maxDepth {
        continue;
      }
      var raw := Expand(inp, policy, frame.node, frame.entity);
      var cutoff;
      state, cutoff := TraverseSteps(inp, params, frame, OrderedSteps(raw), state);
      if cutoff {
        break;
      }
    }
    assert state == Final(p);
    FinalInv(p);
    var ranking := RankCandidates(state.kept);
    var hits := RankedHits(Truncated(ranking, params.limit), inp.includeReasonPaths);
    var groups := GroupHits(hits);
    response := Response(EngineSummary(hits), state.stats, groups);
    assert AnswersWith(inp, params.limit, state, response, ranking);
  }
}
