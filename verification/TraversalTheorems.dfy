/** Theorems about whole runs of the traversal, over any step function. */
module TraversalTheorems {
  import opened ImpactModel
  import opened Traversal
  import opened TraversalInvariants

  function Final(p: Problem): State { Run(p, Init(p)) }

  function AllVisits(p: Problem): seq<Frame> { Visits(p, Init(p)) }

  /** No budget was met: the queue drained. */
  predicate Drained(p: Problem) { Final(p).stats.cutoffs == [] }

  lemma FinalInv(p: Problem)
    requires WellFormed(p)
    ensures Inv(p, Final(p), AllVisits(p))
  {
    InitInv(p);
    RunKeeps(p, Init(p), []);
    assert [] + AllVisits(p) == AllVisits(p);
  }

  /* ---- drain closure ---- */

  /** What expanding `f` along `step` must leave behind. */
  ghost predicate Settled(p: Problem, s: State, f: Frame, step: Step) {
    && Offered(p, s, f, step)
    && (step.next.Some? ==>
          && step.next.value.Key() in s.best
          && !FrameLess(NextFrame(f, step), s.best[step.next.value.Key()]))
  }

  ghost predicate Closed(p: Problem, s: State, v: seq<Frame>) {
    forall f, step :: f in v && f.depth < p.policy.maxDepth && step in p.steps(f.node) ==> Settled(p, s, f, step)
  }

  lemma SettledImproves(p: Problem, s: State, s': State, f: Frame, step: Step)
    requires Improves(s, s') && Settled(p, s, f, step)
    ensures Settled(p, s', f, step)
  {
    var k := step.entity.Key();
    if k != p.seed.Key() {
      if s'.kept[k] != s.kept[k] && OfferLess(OfferOf(p, f, step), s'.kept[k]) {
        OfferLessTransitive(OfferOf(p, f, step), s'.kept[k], s.kept[k]);
      }
    }
    if step.next.Some? {
      var x, n := NextFrame(f, step), step.next.value.Key();
      if s'.best[n] != s.best[n] && FrameLess(x, s'.best[n]) {
        FrameLessTransitive(x, s'.best[n], s.best[n]);
      }
    }
  }

  lemma ClosedImproves(p: Problem, s: State, s': State, v: seq<Frame>)
    requires Improves(s, s') && Closed(p, s, v)
    ensures Closed(p, s', v)
  {
    forall f, step | f in v && f.depth < p.policy.maxDepth && step in p.steps(f.node) ensures Settled(p, s', f, step) {
      SettledImproves(p, s, s', f, step);
    }
  }

  lemma TakeStepSettles(p: Problem, s: State, v: seq<Frame>, step: Step)
    requires Inv(p, s, v) && v != [] && s.stats.cutoffs == []
    requires var f := v[|v| - 1]; f.depth < p.policy.maxDepth && step in p.steps(f.node)
    ensures Settled(p, TakeStep(p, v[|v| - 1], step, s), v[|v| - 1], step)
  {
    var f := v[|v| - 1];
    OfferStepInv(p, s, v, step);
    if step.next.Some? {
      EnqueueImproves(p, OfferStep(p, f, step, s), NextFrame(f, step));
    }
  }

  lemma {:induction false} TakeStepsSettle(p: Problem, s: State, v: seq<Frame>, steps: seq<Step>)
    requires Inv(p, s, v) && v != [] && s.stats.cutoffs == []
    requires Continues(p, v[|v| - 1], steps)
    ensures var (s', stop) := TakeSteps(p, v[|v| - 1], steps, s);
            !stop ==> forall step :: step in steps ==> Settled(p, s', v[|v| - 1], step)
    decreases |steps|
  {
    hide Inv;
    hide TakeStep;
    hide Settled;
    var f := v[|v| - 1];
    if steps != [] && s.stats.edges < p.policy.maxEdges && s.stats.candidates < p.policy.maxCandidates {
      var t := TakeStep(p, f, steps[0], s);
      TakeStepKeeps(p, s, v, steps[0]);
      TakeStepSettles(p, s, v, steps[0]);
      TakeStepsKeeps(p, t, v, steps[1..]);
      TakeStepsSettle(p, t, v, steps[1..]);
      SettledImproves(p, t, TakeSteps(p, f, steps[1..], t).0, f, steps[0]);
      assert forall step :: step in steps ==> step == steps[0] || step in steps[1..];
    }
  }

  lemma ExpandCloses(p: Problem, s: State, v: seq<Frame>)
    requires Inv(p, s, v) && v != [] && s.stats.cutoffs == [] && Closed(p, s, v[..|v| - 1])
    requires v[|v| - 1].depth < p.policy.maxDepth
    ensures var (s', stop) := TakeSteps(p, v[|v| - 1], p.steps(v[|v| - 1].node), s); !stop ==> Closed(p, s', v)
  {
    hide Inv;
    hide Settled;
    hide TakeSteps;
    var f := v[|v| - 1];
    var (s', stop) := TakeSteps(p, f, p.steps(f.node), s);
    TakeStepsKeeps(p, s, v, p.steps(f.node));
    TakeStepsSettle(p, s, v, p.steps(f.node));
    ClosedImproves(p, s, s', v[..|v| - 1]);
    assert v == v[..|v| - 1] + [f];
  }

  lemma IterateCloses(p: Problem, s: State, v: seq<Frame>)
    requires Inv(p, s, v) && s.queue != [] && s.stats.cutoffs == [] && Closed(p, s, v)
    ensures var (s', stop) := Iterate(p, s); !stop ==> Closed(p, s', v + VisitedBy(p, s))
  {
    hide Inv;
    hide TakeSteps;
    hide Offered;
    var f, w := s.queue[0], v + VisitedBy(p, s);
    if !Stale(s, f) && s.stats.nodes < p.policy.maxNodes {
      assert w == v + [f] && w[..|w| - 1] == v;
      VisitKeeps(p, s, v);
      assert Improves(s, Visit(s));
      ClosedImproves(p, s, Visit(s), v);
      if f.depth < p.policy.maxDepth {
        ExpandCloses(p, Visit(s), w);
      }
    } else {
      assert w == v && Improves(s, Iterate(p, s).0);
      ClosedImproves(p, s, Iterate(p, s).0, v);
    }
  }

  lemma {:induction false} RunCloses(p: Problem, s: State, v: seq<Frame>)
    requires Inv(p, s, v) && s.stats.cutoffs == [] && Closed(p, s, v)
    ensures Run(p, s).stats.cutoffs == [] ==> Run(p, s).queue == [] && Closed(p, Run(p, s), v + Visits(p, s))
    decreases Measure(p, s)
  {
    hide Inv;
    hide Iterate;
    hide VisitedBy;
    hide Closed;
    if s.queue == [] {
      assert v + [] == v;
    } else {
      var (t, stop) := Iterate(p, s);
      IterateKeeps(p, s, v);
      IterateCloses(p, s, v);
      IterateMeasure(p, s);
      if !stop {
        RunCloses(p, t, v + VisitedBy(p, s));
        assert v + Visits(p, s) == (v + VisitedBy(p, s)) + Visits(p, t);
      }
    }
  }

  lemma DrainedRunIsClosed(p: Problem)
    requires WellFormed(p) && Drained(p)
    ensures Final(p).queue == [] && Closed(p, Final(p), AllVisits(p))
  {
    InitInv(p);
    RunCloses(p, Init(p), []);
    assert [] + AllVisits(p) == AllVisits(p);
  }

  /** When no budget was met, every node's best frame was visited; and one below the depth cap
    was expanded, so that what it leads to is kept, and queued, at least as well. */
  lemma DrainClosure(p: Problem)
    requires WellFormed(p) && Drained(p)
    ensures Final(p).queue == []
    ensures forall k :: k in Final(p).best ==> Final(p).best[k] in AllVisits(p)
    ensures forall k, step :: k in Final(p).best && Final(p).best[k].depth < p.policy.maxDepth
                              && step in p.steps(Final(p).best[k].node)
              ==> Settled(p, Final(p), Final(p).best[k], step)
  {
    var s := Final(p);
    FinalInv(p);
    DrainedRunIsClosed(p);
    forall k | k in s.best ensures s.best[k] in AllVisits(p) {
      assert Live(s, AllVisits(p), s.best[k]);
    }
    assert Closed(p, s, AllVisits(p));
  }

  /* ---- hits are the best offers of the visits ---- */

  /** The frame was visited below the cap and has a step to the entity with this key. */
  ghost predicate LeadsTo(p: Problem, v: seq<Frame>, f: Frame, step: Step, key: string) {
    f in v && f.depth < p.policy.maxDepth && step in p.steps(f.node) && step.entity.Key() == key
  }

  ghost predicate OfferedBy(p: Problem, v: seq<Frame>, key: string, h: Candidate) {
    exists f, step :: LeadsTo(p, v, f, step, key) && h == OfferOf(p, f, step)
  }

  ghost predicate OnlyOffers(p: Problem, s: State, v: seq<Frame>) {
    forall k :: k in s.kept && k != p.seed.Key() ==> OfferedBy(p, v, k, s.kept[k])
  }

  lemma OnlyOffersGrow(p: Problem, s: State, v: seq<Frame>, w: seq<Frame>)
    requires OnlyOffers(p, s, v) && forall f :: f in v ==> f in w
    ensures OnlyOffers(p, s, w)
  {
    forall k | k in s.kept && k != p.seed.Key() ensures OfferedBy(p, w, k, s.kept[k]) {
      var f, step :| LeadsTo(p, v, f, step, k) && s.kept[k] == OfferOf(p, f, step);
      assert LeadsTo(p, w, f, step, k);
    }
  }

  lemma TakeStepOffers(p: Problem, s: State, v: seq<Frame>, step: Step)
    requires Shape(p, s) && WellFormed(p) && OnlyOffers(p, s, v) && v != []
    requires v[|v| - 1].depth < p.policy.maxDepth && step in p.steps(v[|v| - 1].node)
    ensures OnlyOffers(p, TakeStep(p, v[|v| - 1], step, s), v)
  {
    var f := v[|v| - 1];
    var s', key := TakeStep(p, f, step, s), step.entity.Key();
    if key != p.seed.Key() {
      AddCandidateEffect(s.kept, OfferOf(p, f, step));
      assert LeadsTo(p, v, f, step, key);
      forall k | k in s'.kept && k != p.seed.Key() ensures OfferedBy(p, v, k, s'.kept[k]) {
        assert k == key || k in s.kept;
      }
    }
  }

  lemma ShapeOf(p: Problem, s: State, v: seq<Frame>)
    requires Inv(p, s, v)
    ensures Shape(p, s) && WellFormed(p)
  {
  }

  lemma {:induction false} TakeStepsOffer(p: Problem, s: State, v: seq<Frame>, steps: seq<Step>)
    requires Inv(p, s, v) && OnlyOffers(p, s, v) && v != [] && s.stats.cutoffs == []
    requires Continues(p, v[|v| - 1], steps)
    ensures OnlyOffers(p, TakeSteps(p, v[|v| - 1], steps, s).0, v)
    decreases |steps|
  {
    ShapeOf(p, s, v);
    hide Inv;
    hide TakeStep;
    hide OnlyOffers;
    if steps != [] && s.stats.edges < p.policy.maxEdges && s.stats.candidates < p.policy.maxCandidates {
      TakeStepOffers(p, s, v, steps[0]);
      TakeStepKeeps(p, s, v, steps[0]);
      TakeStepsOffer(p, TakeStep(p, v[|v| - 1], steps[0], s), v, steps[1..]);
    }
  }

  lemma IterateOffers(p: Problem, s: State, v: seq<Frame>)
    requires Inv(p, s, v) && s.queue != [] && s.stats.cutoffs == [] && OnlyOffers(p, s, v)
    ensures OnlyOffers(p, Iterate(p, s).0, v + VisitedBy(p, s))
  {
    hide Inv;
    hide TakeSteps;
    hide OfferedBy;
    var f, w := s.queue[0], v + VisitedBy(p, s);
    OnlyOffersGrow(p, s, v, w);
    if Visited(p, s) {
      VisitKeeps(p, s, v);
      assert w == v + [f] && w[|w| - 1] == f && OnlyOffers(p, Visit(s), w);
      if f.depth < p.policy.maxDepth {
        TakeStepsOffer(p, Visit(s), w, p.steps(f.node));
      }
    }
  }

  lemma {:induction false} RunOffers(p: Problem, s: State, v: seq<Frame>)
    requires Inv(p, s, v) && s.stats.cutoffs == [] && OnlyOffers(p, s, v)
    ensures OnlyOffers(p, Run(p, s), v + Visits(p, s))
    decreases Measure(p, s)
  {
    hide Inv;
    hide Iterate;
    hide VisitedBy;
    hide OnlyOffers;
    if s.queue == [] {
      assert v + [] == v;
    } else {
      var (t, stop) := Iterate(p, s);
      IterateKeeps(p, s, v);
      IterateOffers(p, s, v);
      IterateMeasure(p, s);
      if stop {
        assert v + Visits(p, s) == v + VisitedBy(p, s);
      } else {
        RunOffers(p, t, v + VisitedBy(p, s));
        assert v + Visits(p, s) == (v + VisitedBy(p, s)) + Visits(p, t);
      }
    }
  }

  /** Every hit is an offer of a visited frame, also after a cutoff. */
  lemma HitsAreOffers(p: Problem, key: string) returns (f: Frame, step: Step)
    requires WellFormed(p) && key in Final(p).kept && key != p.seed.Key()
    ensures LeadsTo(p, AllVisits(p), f, step, key) && Final(p).kept[key] == OfferOf(p, f, step)
  {
    InitInv(p);
    RunOffers(p, Init(p), []);
    assert [] + AllVisits(p) == AllVisits(p);
    assert OfferedBy(p, AllVisits(p), key, Final(p).kept[key]);
    f, step :| LeadsTo(p, AllVisits(p), f, step, key) && Final(p).kept[key] == OfferOf(p, f, step);
  }

  lemma VisitsAreSound(p: Problem, f: Frame)
    requires WellFormed(p) && f in AllVisits(p)
    ensures FrameSound(p, f)
  {
    FinalInv(p);
    assert Live(Final(p), AllVisits(p), f);
    assert FrameInv(p, Final(p), f);
  }

  /** In every scenario: when no budget was met, the entities hit are exactly those that a frame
    visited below the cap steps to, and each hit is one of their offers that no other beats. */
  lemma HitsAreBestOffers(p: Problem, key: string)
    requires WellFormed(p) && Drained(p) && key != p.seed.Key()
    ensures key in Final(p).kept <==> exists f, step :: LeadsTo(p, AllVisits(p), f, step, key)
    ensures key in Final(p).kept ==>
              && OfferedBy(p, AllVisits(p), key, Final(p).kept[key])
              && forall f, step :: LeadsTo(p, AllVisits(p), f, step, key)
                   ==> !OfferLess(OfferOf(p, f, step), Final(p).kept[key])
  {
    InitInv(p);
    RunOffers(p, Init(p), []);
    assert [] + AllVisits(p) == AllVisits(p);
    DrainedRunIsClosed(p);
    forall f, step | LeadsTo(p, AllVisits(p), f, step, key)
      ensures key in Final(p).kept && !OfferLess(OfferOf(p, f, step), Final(p).kept[key])
    {
      assert Settled(p, Final(p), f, step);
    }
  }

  /* ---- soundness and simple paths ---- */

  /** Every hit but the seed rests on a chain of steps from the seed, and its evidence visits no
    entity twice. */
  lemma HitsAreSound(p: Problem, key: string) returns (c: seq<Step>)
    requires WellFormed(p) && key in Final(p).kept && key != p.seed.Key()
    ensures var h := Final(p).kept[key];
            EndsOn(p, c, key) && Supports(p, c, h) && SimplePath(p.seed.Key(), h.reasonPaths[0])
  {
    FinalInv(p);
    assert HitSound(p, Final(p).kept[key]);
    c :| Supports(p, c, Final(p).kept[key]);
  }

  /** The evidence of every hit but the seed joins up, edge by edge, from the seed entity to it. */
  lemma EvidenceJoinsUp(p: Problem, key: string)
    requires WellFormed(p) && key in Final(p).kept && key != p.seed.Key()
    ensures var h := Final(p).kept[key];
            && |h.reasonPaths| == 1 && |h.reasonPaths[0]| == h.depth > 0
            && h.reasonPaths[0][0].from == p.seedEntity
            && (forall i :: 0 < i < h.depth ==> h.reasonPaths[0][i].from == h.reasonPaths[0][i - 1].to)
            && h.reasonPaths[0][h.depth - 1].to == h.entity
            && h.reasonPaths[0][h.depth - 1].kind == h.reason
  {
    hide Run;
    var c := HitsAreSound(p, key);
  }

  /* ---- bounded re-expansion ---- */

  /** Frames are visited level by level, and a node again only deeper and in a better tier. */
  lemma Revisiting(p: Problem, i: nat, j: nat)
    requires WellFormed(p) && i < j < |AllVisits(p)|
    ensures var v := AllVisits(p);
            && v[i].depth <= v[j].depth
            && (v[i].node == v[j].node ==> v[i].depth < v[j].depth && TierRank(v[j].tier) < TierRank(v[i].tier))
  {
    FinalInv(p);
    assert Revisits(AllVisits(p)[j], AllVisits(p)[i]);
  }

  ghost predicate NodeStepsWithin(p: Problem, worst: Tier) {
    forall n: Node, step: Step :: step in p.steps(n) && step.next.Some? ==> TierRank(step.tier) <= TierRank(worst)
  }

  lemma {:induction false} ChainTierWithin(p: Problem, c: seq<Step>, worst: Tier)
    requires IsChain(p, c) && NodeStepsWithin(p, worst) && At(p, c, |c|).Some?
    ensures TierRank(WorstTier(c)) <= TierRank(worst)
  {
    if c != [] {
      PrefixChain(p, c);
      ChainTierWithin(p, c[..|c| - 1], worst);
    }
  }

  /** A frame of the run: visited, still queued, or the best of its node. */
  ghost predicate OfRun(p: Problem, f: Frame) {
    f in AllVisits(p) || f in Final(p).queue || (f.node.Key() in Final(p).best && Final(p).best[f.node.Key()] == f)
  }

  /** Frames are no worse than the steps that lead to nodes. */
  lemma FramesWithin(p: Problem, worst: Tier, f: Frame)
    requires WellFormed(p) && NodeStepsWithin(p, worst) && OfRun(p, f)
    ensures TierRank(f.tier) <= TierRank(worst)
  {
    hide Run;
    FinalInv(p);
    assert FrameSound(p, f) by {
      if Live(Final(p), AllVisits(p), f) {
        assert FrameInv(p, Final(p), f);
      }
    }
    var c :| Explains(p, c, f);
    ChainTierWithin(p, c, worst);
  }

  /** No node is visited three times when no node is reached through a Possible step ... */
  lemma AtMostTwice(p: Problem, i: nat, j: nat, k: nat)
    requires WellFormed(p) && NodeStepsWithin(p, Likely) && i < j < k < |AllVisits(p)|
    ensures var v := AllVisits(p); !(v[i].node == v[j].node == v[k].node)
  {
    Revisiting(p, i, j);
    Revisiting(p, j, k);
    FramesWithin(p, Likely, AllVisits(p)[i]);
  }

  /** ... and none twice when nodes are reached through Certain steps only. */
  lemma AtMostOnce(p: Problem, i: nat, j: nat)
    requires WellFormed(p) && NodeStepsWithin(p, Certain) && i < j < |AllVisits(p)|
    ensures AllVisits(p)[i].node != AllVisits(p)[j].node
  {
    Revisiting(p, i, j);
    FramesWithin(p, Certain, AllVisits(p)[i]);
  }

  /* ---- exactness ---- */

  /** The search stands at node `n` with a frame no worse than (tier, depth). */
  ghost predicate Reaches(p: Problem, n: Node, t: Tier, d: nat) {
    n.Key() in Final(p).best && Final(p).best[n.Key()].node == n
    && NoWorse(Final(p).best[n.Key()].tier, Final(p).best[n.Key()].depth, t, d)
  }

  ghost predicate Keeps(p: Problem, key: string, t: Tier, d: nat) {
    key in Final(p).kept && NoWorse(Final(p).kept[key].tier, Final(p).kept[key].depth, t, d)
  }

  /** Drain closure, as a bound on what lies one step beyond a node. */
  lemma OneStepBeyond(p: Problem, n: Node, step: Step)
    requires WellFormed(p) && Drained(p) && n.Key() in Final(p).best && Final(p).best[n.Key()].node == n
    requires Final(p).best[n.Key()].depth < p.policy.maxDepth && step in p.steps(n)
    ensures var f := Final(p).best[n.Key()];
            && (step.entity.Key() != p.seed.Key() ==>
                  Keeps(p, step.entity.Key(), Combine(f.tier, step.tier), f.depth + 1))
            && (step.next.Some? ==> Reaches(p, step.next.value, Combine(f.tier, step.tier), f.depth + 1))
  {
    hide Run;
    hide OfferLess;
    hide FrameLess;
    hide Inv;
    var f := Final(p).best[n.Key()];
    DrainClosure(p);
    assert Settled(p, Final(p), f, step);
    if step.entity.Key() != p.seed.Key() {
      var c := HitsAreSound(p, step.entity.Key());
    }
    if step.next.Some? {
      BestIsKeyed(p, step.next.value);
      BestNoWorse(NextFrame(f, step), Final(p).best[step.next.value.Key()]);
    }
  }

  lemma BestIsKeyed(p: Problem, n: Node)
    requires WellFormed(p) && n.Key() in Final(p).best
    ensures Final(p).best[n.Key()].node == n
  {
    FinalInv(p);
    NodeKeyInjective(Final(p).best[n.Key()].node, n);
  }

  lemma BestNoWorse(x: Frame, best: Frame)
    requires !FrameLess(x, best)
    ensures NoWorse(best.tier, best.depth, x.tier, x.depth)
  {
  }

  lemma SeedIsReached(p: Problem)
    requires WellFormed(p)
    ensures Reaches(p, p.seed, Certain, 0)
  {
    FinalInv(p);
  }

  /** A chain of Certain steps is matched by a Certain frame that is no deeper. */
  lemma {:induction false} CertainChainIsFollowed(p: Problem, c: seq<Step>)
    requires WellFormed(p) && Drained(p) && IsChain(p, c) && |c| <= p.policy.maxDepth
    requires WorstTier(c) == Certain && At(p, c, |c|).Some?
    ensures Reaches(p, At(p, c, |c|).value, Certain, |c|)
  {
    if c == [] {
      SeedIsReached(p);
    } else {
      PrefixChain(p, c);
      CertainChainIsFollowed(p, c[..|c| - 1]);
      OneStepBeyond(p, At(p, c, |c| - 1).value, Last(c));
    }
  }

  /** The last step of a chain whose prefix is Certain is kept at least as well as it offers. */
  lemma LastStepIsKept(p: Problem, c: seq<Step>, key: string)
    requires WellFormed(p) && Drained(p) && EndsOn(p, c, key) && |c| <= p.policy.maxDepth && key != p.seed.Key()
    requires WorstTier(c[..|c| - 1]) == Certain
    ensures Keeps(p, key, WorstTier(c), |c|)
  {
    PrefixChain(p, c);
    CertainChainIsFollowed(p, c[..|c| - 1]);
    OneStepBeyond(p, At(p, c, |c| - 1).value, Last(c));
  }

  /** The Certain tier is exact: an entity ends Certain exactly when a chain of Certain steps within
    the depth cap reaches it ... */
  lemma CertainTierIsExact(p: Problem, key: string)
    requires WellFormed(p) && Drained(p) && key != p.seed.Key()
    ensures (key in Final(p).kept && Final(p).kept[key].tier == Certain) <==>
            exists c :: EndsOn(p, c, key) && WorstTier(c) == Certain && |c| <= p.policy.maxDepth
  {
    forall c | EndsOn(p, c, key) && WorstTier(c) == Certain && |c| <= p.policy.maxDepth
      ensures key in Final(p).kept && Final(p).kept[key].tier == Certain
    {
      LastStepIsKept(p, c, key);
    }
    if key in Final(p).kept {
      var d := HitsAreSound(p, key);
    }
  }

  /** ... and its depth is that of the shortest one. */
  lemma CertainDepthIsShortest(p: Problem, key: string)
    requires WellFormed(p) && Drained(p) && key != p.seed.Key()
    requires key in Final(p).kept && Final(p).kept[key].tier == Certain
    ensures exists c :: EndsOn(p, c, key) && WorstTier(c) == Certain && |c| == Final(p).kept[key].depth
    ensures forall c :: EndsOn(p, c, key) && WorstTier(c) == Certain ==> Final(p).kept[key].depth <= |c|
  {
    hide Run;
    var d := HitsAreSound(p, key);
    forall c | EndsOn(p, c, key) && WorstTier(c) == Certain ensures Final(p).kept[key].depth <= |c| {
      if |c| <= p.policy.maxDepth {
        LastStepIsKept(p, c, key);
      }
    }
  }

  /** When nodes are reached through Certain steps only, a hit is no worse than any chain to its
    entity by (worst tier, length) ... */
  lemma BestOfAllChains(p: Problem, key: string, c: seq<Step>)
    requires WellFormed(p) && Drained(p) && NodeStepsWithin(p, Certain) && key != p.seed.Key()
    requires EndsOn(p, c, key) && |c| <= p.policy.maxDepth
    ensures Keeps(p, key, WorstTier(c), |c|)
  {
    PrefixChain(p, c);
    ChainTierWithin(p, c[..|c| - 1], Certain);
    LastStepIsKept(p, c, key);
  }

  /** ... and nothing within the depth cap is missed. */
  lemma CompleteWhenNodesAreCertain(p: Problem, key: string)
    requires WellFormed(p) && Drained(p) && NodeStepsWithin(p, Certain) && key != p.seed.Key()
    ensures key in Final(p).kept <==> exists c :: EndsOn(p, c, key) && |c| <= p.policy.maxDepth
  {
    forall c | EndsOn(p, c, key) && |c| <= p.policy.maxDepth ensures key in Final(p).kept {
      BestOfAllChains(p, key, c);
    }
    if key in Final(p).kept {
      var d := HitsAreSound(p, key);
    }
  }

  /* ---- minimax ---- */

  ghost predicate NoBestAtCap(p: Problem) {
    forall k :: k in Final(p).best ==> Final(p).best[k].depth < p.policy.maxDepth
  }

  lemma {:induction false} ChainIsFollowed(p: Problem, c: seq<Step>) returns (d: nat)
    requires WellFormed(p) && Drained(p) && NoBestAtCap(p) && IsChain(p, c) && At(p, c, |c|).Some?
    ensures Reaches(p, At(p, c, |c|).value, WorstTier(c), d)
  {
    if c == [] {
      SeedIsReached(p);
      d := 0;
    } else {
      PrefixChain(p, c);
      d := ChainIsFollowed(p, c[..|c| - 1]);
      var n := At(p, c, |c| - 1).value;
      OneStepBeyond(p, n, Last(c));
      d := Final(p).best[n.Key()].depth + 1;
    }
  }

  /** If the cap bound nowhere, an entity is hit exactly when any chain at all reaches it, and its
    tier is the best, over all chains, of the worst tier on the chain: although (tier, depth) is
    not preserved by extension, tiers alone are. */
  lemma TiersAreMinimax(p: Problem, key: string)
    requires WellFormed(p) && Drained(p) && NoBestAtCap(p) && key != p.seed.Key()
    ensures key in Final(p).kept <==> exists c :: EndsOn(p, c, key)
    ensures key in Final(p).kept ==>
            && (exists c :: EndsOn(p, c, key) && WorstTier(c) == Final(p).kept[key].tier)
            && forall c :: EndsOn(p, c, key) ==> TierRank(Final(p).kept[key].tier) <= TierRank(WorstTier(c))
  {
    forall c | EndsOn(p, c, key)
      ensures key in Final(p).kept && TierRank(Final(p).kept[key].tier) <= TierRank(WorstTier(c))
    {
      PrefixChain(p, c);
      var d := ChainIsFollowed(p, c[..|c| - 1]);
      OneStepBeyond(p, At(p, c, |c| - 1).value, Last(c));
    }
    if key in Final(p).kept {
      var d := HitsAreSound(p, key);
    }
  }
}
