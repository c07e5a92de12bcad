/** When does the engine find everything within the depth cap?

  Under ModifyBehavior a deeper Certain frame can retire a shallower Likely frame of the same file
  before that one is expanded, and what lies behind the file then falls beyond the cap.  So the
  drained search is complete for every input of a scenario exactly when the scenario is another
  one, or the cap is at most one step; and for a given input, of any scenario, when no node has its
  shortest all-Certain chain exactly one step longer than its shortest chain. */
module Completeness {
  import opened Ordering
  import opened ImpactModel
  import opened Enrichment
  import opened Traversal
  import opened TraversalTheorems
  import opened Levels
  import opened Engine
  import opened Detours
  import opened MissingInput

  /** Everything that a raw chain within the cap leads to is kept. */
  ghost predicate FindsAll(inp: Inputs, params: Params) {
    var p := Search(inp, params);
    forall key :: key != p.seed.Key() && HasChain(RawGraph(inp, params), key, p.policy.maxDepth, Possible)
      ==> key in Final(p).kept
  }

  /** For every input of the scenario with this cap whose run met no budget. */
  ghost predicate Complete(scenario: Scenario, cap: nat) {
    forall inp: Inputs, params: Params ::
      (inp.scenario == scenario && Search(inp, params).policy.maxDepth == cap && Drained(Search(inp, params)))
      ==> FindsAll(inp, params)
  }

  lemma FindsAllOutsideModifyBehavior(inp: Inputs, params: Params)
    requires inp.scenario != ModifyBehavior && Drained(Search(inp, params))
    ensures FindsAll(inp, params)
  {
    hide Search;
    hide RawGraph;
    hide Final;
    SearchServes(inp, params);
    var p := Search(inp, params);
    forall key | key != p.seed.Key() && HasChain(RawGraph(inp, params), key, p.policy.maxDepth, Possible)
      ensures key in Final(p).kept
    {
      ReachIsExact(p, RawGraph(inp, params), inp.scenario, key);
    }
  }

  /** One step from the seed is never missed. */
  lemma FindsAllDirect(inp: Inputs, params: Params)
    requires Search(inp, params).policy.maxDepth <= 1 && Drained(Search(inp, params))
    ensures FindsAll(inp, params)
  {
    hide Search;
    hide RawGraph;
    hide Final;
    var p := Search(inp, params);
    SearchServes(inp, params);
    forall key | key != p.seed.Key() && HasChain(RawGraph(inp, params), key, p.policy.maxDepth, Possible)
      ensures key in Final(p).kept
    {
      ChainsAgree(p, RawGraph(inp, params), inp.scenario, key, p.policy.maxDepth, Possible);
      var c :| EndsOn(p, c, key) && |c| <= p.policy.maxDepth && TierRank(WorstTier(c)) <= TierRank(Possible);
      assert c[..|c| - 1] == [];
      LastStepIsKept(p, c, key);
    }
  }

  /* ---- a condition on the input ---- */

  lemma NodeChainsAgree(p: Problem, r: Problem, scenario: Scenario, n: Node, length: nat, worst: Tier)
    requires Serves(p, r, scenario)
    ensures NodeChain(r, n, length, worst) <==> NodeChain(p, n, length, worst)
  {
    if NodeChain(r, n, length, worst) {
      var c :| IsChain(r, c) && |c| == length && At(r, c, |c|) == Some(n) && TierRank(WorstTier(c)) <= TierRank(worst);
      var d := RawChainIsOrdered(p, r, scenario, c);
    }
    if NodeChain(p, n, length, worst) {
      var c :| IsChain(p, c) && |c| == length && At(p, c, |c|) == Some(n) && TierRank(WorstTier(c)) <= TierRank(worst);
      OrderedChainIsRaw(p, r, scenario, c);
    }
  }

  lemma NearMissesAgree(p: Problem, r: Problem, scenario: Scenario, n: Node, d: nat)
    requires Serves(p, r, scenario) && NearMiss(p, n, d)
    ensures NearMiss(r, n, d)
  {
    hide NodeChain;
    forall e: nat ensures NodeChain(r, n, e, Possible) <==> NodeChain(p, n, e, Possible) {
      NodeChainsAgree(p, r, scenario, n, e, Possible);
    }
    NodeChainsAgree(p, r, scenario, n, d, Certain);
    NodeChainsAgree(p, r, scenario, n, d + 1, Certain);
  }

  lemma SamePolicy(inp: Inputs, params: Params)
    ensures Search(inp, params).policy == RawGraph(inp, params).policy
  {
  }

  /** In every scenario: if no node below the cap has its shortest all-Certain raw chain exactly one step
    longer than its shortest raw chain, the drained search finds everything within the cap. */
  lemma FindsAllWithoutNearMiss(inp: Inputs, params: Params)
    requires Drained(Search(inp, params)) && NoNearMiss(RawGraph(inp, params))
    ensures FindsAll(inp, params)
  {
    var p, r := Search(inp, params), RawGraph(inp, params);
    SearchServes(inp, params);
    SearchIsWellFormed(inp, params);
    SamePolicy(inp, params);
    hide Search;
    hide RawGraph;
    hide Final;
    hide Serves;
    hide WellFormed;
    hide NearMiss;
    forall n: Node, d: nat | d < p.policy.maxDepth ensures !NearMiss(p, n, d) {
      if NearMiss(p, n, d) {
        NearMissesAgree(p, r, inp.scenario, n, d);
      }
    }
    forall key | key != p.seed.Key() && HasChain(r, key, p.policy.maxDepth, Possible) ensures key in Final(p).kept {
      CompleteWithoutNearMiss(p, key);
      ChainsAgree(p, r, inp.scenario, key, p.policy.maxDepth, Possible);
    }
  }

  /* ---- a condition on scenario and cap ---- */

  /** With cap 2 file `c.ts` is missed, with cap 3 file `e.ts`. */
  lemma ModifyBehaviorMisses(cap: nat)
    requires 2 <= cap <= 3
    ensures Drained(Search(MissingInputs(), MissingParams(cap)))
    ensures !FindsAll(MissingInputs(), MissingParams(cap))
  {
    hide Search;
    hide RawGraph;
    hide HasChain;
    hide Final;
    hide Detour.In;
    hide Known;
    hide MissingInputs;
    hide MissingParams;
    hide MissingDetour;
    hide Node.Key;
    var p := Missing(cap);
    MissingSettings(cap);
    MissingIsDetour(cap);
    MissedChains(cap);
    DetourRun(p, MissingDetour());
    assert MissingDetour().n == SymbolNode("n") && MissingDetour().c == FileNode("c.ts") by { DetourNodes(); }
    MissedIsUnrecorded(cap, p, Final(p));
  }

  /** Exactly when the drained search finds everything within its cap, scenario by scenario. */
  lemma CompletenessCondition(scenario: Scenario, cap: nat)
    requires cap <= BasePolicy(scenario).maxDepth
    ensures Complete(scenario, cap) <==> scenario != ModifyBehavior || cap <= 1
  {
    hide FindsAll;
    if scenario != ModifyBehavior || cap <= 1 {
      forall inp: Inputs, params: Params
        | inp.scenario == scenario && Search(inp, params).policy.maxDepth == cap && Drained(Search(inp, params))
        ensures FindsAll(inp, params)
      {
        if scenario != ModifyBehavior {
          FindsAllOutsideModifyBehavior(inp, params);
        } else {
          FindsAllDirect(inp, params);
        }
      }
    } else {
      MissingIsDetour(cap);
      ModifyBehaviorMisses(cap);
    }
  }
}
