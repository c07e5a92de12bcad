/** The budgets of the traversal, and how often a node is visited. */
module TraversalBudgets {
  import opened ImpactModel
  import opened Traversal
  import opened TraversalInvariants
  import opened TraversalTheorems

  predicate LimitMet(p: Problem, stats: Stats, cutoff: Cutoff) {
    match cutoff
    case NodesVisited => stats.nodes >= p.policy.maxNodes
    case EdgesTraversed => stats.edges >= p.policy.maxEdges
    case CandidatesConsidered => stats.candidates >= p.policy.maxCandidates && stats.edges < p.policy.maxEdges
  }

  /** At most one cutoff is recorded, and only when its limit is met. */
  predicate CutoffJustified(p: Problem, stats: Stats) {
    stats.cutoffs == [] || (|stats.cutoffs| == 1 && LimitMet(p, stats, stats.cutoffs[0]))
  }

  predicate WithinBudget(p: Problem, s: State) {
    && s.stats.nodes <= p.policy.maxNodes
    && s.stats.edges <= p.policy.maxEdges
    && s.stats.candidates == s.stats.edges + 1 <= Max(1, p.policy.maxCandidates)
    && |s.kept| <= s.stats.candidates
    && s.stats.depth <= p.policy.maxDepth
    && CutoffJustified(p, s.stats)
  }

  lemma AddCandidateGrowsByOne(kept: map<string, Candidate>, c: Candidate)
    ensures |AddCandidate(kept, c)| <= |kept| + 1
  {
    var kept', key := AddCandidate(kept, c), c.entity.Key();
    assert kept'.Keys == kept.Keys || kept'.Keys == kept.Keys + {key};
    assert |kept'| == |kept'.Keys| && |kept| == |kept.Keys|;
  }

  lemma {:induction false} TakeStepsWithinBudget(p: Problem, f: Frame, steps: seq<Step>, s: State)
    requires WithinBudget(p, s) && s.stats.cutoffs == [] && f.depth < p.policy.maxDepth
    ensures var s' := TakeSteps(p, f, steps, s).0; WithinBudget(p, s') && s'.stats.nodes == s.stats.nodes
    decreases |steps|
  {
    if steps != [] && s.stats.edges < p.policy.maxEdges && s.stats.candidates < p.policy.maxCandidates {
      AddCandidateGrowsByOne(s.kept, OfferOf(p, f, steps[0]));
      TakeStepsWithinBudget(p, f, steps[1..], TakeStep(p, f, steps[0], s));
    }
  }

  lemma IterateWithinBudget(p: Problem, s: State)
    requires WithinBudget(p, s) && s.stats.cutoffs == [] && s.queue != [] && s.queue[0].depth <= p.policy.maxDepth
    ensures var s' := Iterate(p, s).0; WithinBudget(p, s') && s'.stats.nodes == s.stats.nodes + |VisitedBy(p, s)|
  {
    var f := s.queue[0];
    if !Stale(s, f) && s.stats.nodes < p.policy.maxNodes && f.depth < p.policy.maxDepth {
      TakeStepsWithinBudget(p, f, p.steps(f.node), Visit(s));
    }
  }

  lemma {:induction false} RunWithinBudget(p: Problem, s: State, v: seq<Frame>)
    requires Inv(p, s, v) && WithinBudget(p, s) && s.stats.cutoffs == []
    ensures WithinBudget(p, Run(p, s)) && Run(p, s).stats.nodes == s.stats.nodes + |Visits(p, s)|
    decreases Measure(p, s)
  {
    if s.queue != [] {
      assert FrameInv(p, s, s.queue[0]) by { assert Live(s, v, s.queue[0]); }
      hide Inv;
      hide Iterate;
      hide VisitedBy;
      hide WithinBudget;
      IterateKeeps(p, s, v);
      IterateMeasure(p, s);
      IterateWithinBudget(p, s);
      var (t, stop) := Iterate(p, s);
      if !stop {
        RunWithinBudget(p, t, v + VisitedBy(p, s));
      }
    }
  }

  lemma RunStaysWithinBudget(p: Problem)
    requires WellFormed(p)
    ensures WithinBudget(p, Final(p)) && Final(p).stats.nodes == |AllVisits(p)|
  {
    InitInv(p);
    RunWithinBudget(p, Init(p), []);
  }

  /* ---- the counters of a run without cutoff ---- */

  predicate Expanded(p: Problem, f: Frame) {
    f.depth < p.policy.maxDepth && p.steps(f.node) != []
  }

  /** The steps of all frames visited below the cap. */
  function StepsOf(p: Problem, v: seq<Frame>): nat {
    if v == [] then 0
    else StepsOf(p, v[..|v| - 1]) + if Expanded(p, v[|v| - 1]) then |p.steps(v[|v| - 1].node)| else 0
  }

  /** The greatest depth of a visited frame, or of what an expanded one leads to. */
  ghost predicate Deepest(p: Problem, v: seq<Frame>, d: nat) {
    && (forall f :: f in v ==> f.depth <= d && (Expanded(p, f) ==> f.depth < d))
    && (d == 0 || exists f :: f in v && (f.depth == d || (Expanded(p, f) && f.depth + 1 == d)))
  }

  lemma {:induction false} TakeStepsCount(p: Problem, f: Frame, steps: seq<Step>, s: State)
    ensures var (s', stop) := TakeSteps(p, f, steps, s); !stop ==>
              && s'.stats.edges == s.stats.edges + |steps|
              && s'.stats.depth == if steps == [] then s.stats.depth else Max(s.stats.depth, f.depth + 1)
    decreases |steps|
  {
    if steps != [] && s.stats.edges < p.policy.maxEdges && s.stats.candidates < p.policy.maxCandidates {
      TakeStepsCount(p, f, steps[1..], TakeStep(p, f, steps[0], s));
    }
  }

  lemma DeepestGrows(p: Problem, v: seq<Frame>, d: nat, f: Frame)
    requires Deepest(p, v, d)
    ensures Deepest(p, v + [f], Max(d, if Expanded(p, f) then f.depth + 1 else f.depth))
  {
    hide Expanded;
    assert f in v + [f] && forall g :: g in v + [f] <==> g in v || g == f;
  }

  lemma IterateCounts(p: Problem, s: State, v: seq<Frame>)
    requires s.queue != [] && s.stats.edges == StepsOf(p, v) && Deepest(p, v, s.stats.depth)
    ensures var (s', stop) := Iterate(p, s); var w := v + VisitedBy(p, s);
            !stop ==> s'.stats.edges == StepsOf(p, w) && Deepest(p, w, s'.stats.depth)
  {
    hide Stale;
    hide TakeSteps;
    hide Deepest;
    var f, w := s.queue[0], v + VisitedBy(p, s);
    if Visited(p, s) {
      TakeStepsCount(p, f, p.steps(f.node), Visit(s));
      assert w == v + [f] && w[..|w| - 1] == v && w[|w| - 1] == f;
      DeepestGrows(p, v, s.stats.depth, f);
    } else {
      assert w == v;
    }
  }

  lemma {:induction false} RunCounts(p: Problem, s: State, v: seq<Frame>)
    requires Inv(p, s, v) && s.stats.cutoffs == [] && s.stats.edges == StepsOf(p, v) && Deepest(p, v, s.stats.depth)
    ensures var s' := Run(p, s); var w := v + Visits(p, s);
            s'.stats.cutoffs == [] ==> s'.stats.edges == StepsOf(p, w) && Deepest(p, w, s'.stats.depth)
    decreases Measure(p, s)
  {
    hide Inv;
    hide Iterate;
    hide VisitedBy;
    hide Deepest;
    hide StepsOf;
    if s.queue == [] {
      assert v + [] == v;
    } else {
      var (t, stop) := Iterate(p, s);
      IterateKeeps(p, s, v);
      IterateCounts(p, s, v);
      IterateMeasure(p, s);
      if !stop {
        RunCounts(p, t, v + VisitedBy(p, s));
        assert v + Visits(p, s) == (v + VisitedBy(p, s)) + Visits(p, t);
      }
    }
  }

  /** Without cutoff the counters are exact: the edges are the steps of all frames visited below the cap,
    and the depth is the greatest that was reached. */
  lemma CountersAreExact(p: Problem)
    requires WellFormed(p) && Drained(p)
    ensures Final(p).stats.edges == StepsOf(p, AllVisits(p)) && Deepest(p, AllVisits(p), Final(p).stats.depth)
  {
    InitInv(p);
    RunCounts(p, Init(p), []);
    assert [] + AllVisits(p) == AllVisits(p);
  }

  /* ---- visits against discovered nodes ---- */

  function CountTier(v: seq<Frame>, t: Tier): nat {
    if v == [] then 0 else CountTier(v[..|v| - 1], t) + if v[|v| - 1].tier == t then 1 else 0
  }

  lemma {:induction false} CountsAddUp(v: seq<Frame>)
    ensures |v| == CountTier(v, Certain) + CountTier(v, Likely) + CountTier(v, Possible)
  {
    if v != [] {
      CountsAddUp(v[..|v| - 1]);
    }
  }

  lemma {:induction false} NoneOfTier(v: seq<Frame>, t: Tier)
    requires forall i :: 0 <= i < |v| ==> v[i].tier != t
    ensures CountTier(v, t) == 0
  {
    if v != [] {
      NoneOfTier(v[..|v| - 1], t);
    }
  }

  function KeysOfTier(v: seq<Frame>, t: Tier): set<string> {
    if v == [] then {}
    else KeysOfTier(v[..|v| - 1], t) + if v[|v| - 1].tier == t then {v[|v| - 1].node.Key()} else {}
  }

  lemma {:induction false} KeyOfVisit(v: seq<Frame>, t: Tier, key: string) returns (i: nat)
    requires key in KeysOfTier(v, t)
    ensures i < |v| && v[i].tier == t && v[i].node.Key() == key
  {
    if key in KeysOfTier(v[..|v| - 1], t) {
      i := KeyOfVisit(v[..|v| - 1], t, key);
    } else {
      i := |v| - 1;
    }
  }

  lemma SameTierDiffers(v: seq<Frame>, i: nat, j: nat)
    requires VisitOrder(v) && i < j < |v| && v[i].tier == v[j].tier
    ensures v[i].node.Key() != v[j].node.Key()
  {
    assert Revisits(v[j], v[i]);
  }

  /** Within one tier a node is visited at most once. */
  lemma {:induction false} TierVisitsAreDistinct(v: seq<Frame>, t: Tier)
    requires VisitOrder(v)
    ensures |KeysOfTier(v, t)| == CountTier(v, t)
  {
    if v != [] {
      var front, f := v[..|v| - 1], v[|v| - 1];
      TierVisitsAreDistinct(front, t);
      if f.tier == t && f.node.Key() in KeysOfTier(front, t) {
        var i := KeyOfVisit(front, t, f.node.Key());
        SameTierDiffers(v, i, |v| - 1);
      }
    }
  }

  lemma SubsetSize(a: set<string>, b: set<string>)
    requires a <= b
    ensures |a| <= |b|
  {
    assert b == a + (b - a);
  }

  lemma TierVisitsBounded(p: Problem, t: Tier)
    requires WellFormed(p)
    ensures CountTier(AllVisits(p), t) <= |Final(p).best|
  {
    var v, s := AllVisits(p), Final(p);
    FinalInv(p);
    TierVisitsAreDistinct(v, t);
    forall key | key in KeysOfTier(v, t) ensures key in s.best.Keys {
      var i := KeyOfVisit(v, t, key);
      assert FrameInv(p, s, v[i]) by { assert Live(s, v, v[i]); }
    }
    SubsetSize(KeysOfTier(v, t), s.best.Keys);
  }

  /** The number of visits is at most twice the number of discovered nodes when no node is reached
    through a Possible step, and at most that number when all are reached through Certain ones. */
  lemma VisitsBoundedByNodes(p: Problem)
    requires WellFormed(p) && NodeStepsWithin(p, Likely)
    ensures Final(p).stats.nodes <= 2 * |Final(p).best|
    ensures NodeStepsWithin(p, Certain) ==> Final(p).stats.nodes <= |Final(p).best|
  {
    var v := AllVisits(p);
    RunStaysWithinBudget(p);
    CountsAddUp(v);
    TierVisitsBounded(p, Certain);
    TierVisitsBounded(p, Likely);
    forall i | 0 <= i < |v| ensures v[i].tier != Possible {
      FramesWithin(p, Likely, v[i]);
    }
    NoneOfTier(v, Possible);
    if NodeStepsWithin(p, Certain) {
      forall i | 0 <= i < |v| ensures v[i].tier != Likely {
        FramesWithin(p, Certain, v[i]);
      }
      NoneOfTier(v, Likely);
    }
  }
}
