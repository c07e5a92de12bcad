/** When no shallow frame is lost: a condition on the graph at hand.

  A Likely frame can be retired unvisited only by a Certain frame one step deeper.  So if no node has
  its shortest all-Certain chain exactly one step longer than its shortest chain, each node is visited
  at its first level, and a drained search finds everything within the cap. */
module Levels {
  import opened Ordering
  import opened ImpactModel
  import opened Traversal
  import opened TraversalInvariants
  import opened TraversalTheorems

  /** A chain of exactly this length leads to the node, in a tier no worse than `worst`. */
  ghost predicate NodeChain(p: Problem, n: Node, length: nat, worst: Tier) {
    exists c :: IsChain(p, c) && |c| == length && At(p, c, |c|) == Some(n) && TierRank(WorstTier(c)) <= TierRank(worst)
  }

  ghost predicate FirstLevel(p: Problem, n: Node, d: nat) {
    NodeChain(p, n, d, Possible) && forall e: nat :: e < d ==> !NodeChain(p, n, e, Possible)
  }

  /** The shortest all-Certain chain to the node is exactly one step longer than its shortest chain. */
  ghost predicate NearMiss(p: Problem, n: Node, d: nat) {
    FirstLevel(p, n, d) && !NodeChain(p, n, d, Certain) && NodeChain(p, n, d + 1, Certain)
  }

  ghost predicate NoNearMiss(p: Problem) {
    forall n: Node, d: nat :: d < p.policy.maxDepth ==> !NearMiss(p, n, d)
  }

  /* ---- seeing a node at a level ---- */

  /** The node was visited at depth `e` or less, or its best frame stands there. */
  ghost predicate Seen(s: State, v: seq<Frame>, n: Node, e: nat) {
    || (exists g :: g in v && g.node == n && g.depth <= e)
    || (n.Key() in s.best && s.best[n.Key()].node == n && s.best[n.Key()].depth <= e)
  }

  /** A visited frame of depth less than `e`, below the cap, steps to the node. */
  ghost predicate Feeds(p: Problem, v: seq<Frame>, n: Node, e: nat) {
    exists f, step :: FedBy(p, v, n, e, f, step)
  }

  predicate FedBy(p: Problem, v: seq<Frame>, n: Node, e: nat, f: Frame, step: Step) {
    f in v && f.depth < p.policy.maxDepth && f.depth < e && step in p.steps(f.node) && step.next == Some(n)
  }

  ghost predicate Arrives(p: Problem, s: State, v: seq<Frame>, n: Node, e: nat) {
    Feeds(p, v, n, e) ==> Seen(s, v, n, e)
  }

  /** Nodes are reached through Certain and Likely steps only, and none of the chains to `n` of one more
    step than `e` is Certain. */
  ghost predicate Undisturbed(p: Problem, n: Node, e: nat) {
    NodeStepsWithin(p, Likely) && !NodeChain(p, n, e + 1, Certain)
  }

  /** Live frames are at most one level below the frame being expanded. */
  lemma LiveDepth(s: State, v: seq<Frame>, b: Frame)
    requires Order(s, v) && v != [] && Live(s, v, b)
    ensures b.depth <= v[|v| - 1].depth + 1
    ensures b !in v ==> v[|v| - 1].depth <= b.depth
  {
    hide Supersedes;
    hide Revisits;
    if b in v {
      var i :| 0 <= i < |v| && v[i] == b;
      assert v[i].depth <= v[|v| - 1].depth;
    } else {
      var j :| 0 <= j < |s.queue| && s.queue[j] == b;
      assert v[|v| - 1].depth <= s.queue[j].depth;
    }
  }

  /** A frame is as far from the seed as its evidence, and no worse than Likely. */
  lemma FrameIsChain(p: Problem, f: Frame)
    requires FrameSound(p, f) && NodeStepsWithin(p, Likely)
    ensures NodeChain(p, f.node, f.depth, f.tier) && f.tier != Possible
  {
    var c :| Explains(p, c, f);
    ChainTierWithin(p, c, Likely);
  }

  /** A frame at level `e` or above that was not visited yet is replaced by one at level `e` or above. */
  lemma RetiredOnlyIfVisited(p: Problem, s: State, v: seq<Frame>, x: Frame, b: Frame, e: nat)
    requires Order(s, v) && v != [] && Live(s, v, b) && x.depth == v[|v| - 1].depth + 1
    requires FrameSound(p, x) && FrameSound(p, b) && x.node == b.node && Undisturbed(p, b.node, e)
    requires FrameLess(x, b) && b.depth <= e
    ensures b in v || x.depth <= e
  {
    LiveDepth(s, v, b);
    hide Order;
    hide Explains;
    FrameIsChain(p, x);
    FrameIsChain(p, b);
    hide NodeChain;
  }

  lemma EnqueueSees(p: Problem, s: State, v: seq<Frame>, x: Frame, n: Node, e: nat)
    requires Shape(p, s) && Order(s, v) && BestSeen(s, v) && BestSound(p, s) && s.stats.cutoffs == []
    requires FrameSound(p, x) && v != [] && x.depth == v[|v| - 1].depth + 1 && Undisturbed(p, n, e)
    ensures Seen(s, v, n, e) ==> Seen(Enqueue(s, x), v, n, e)
    ensures x.node == n && x.depth <= e ==> Seen(Enqueue(s, x), v, n, e)
  {
    hide Order;
    hide FrameSound;
    hide Undisturbed;
    var key, s' := x.node.Key(), Enqueue(s, x);
    if key in s.best {
      var b := s.best[key];
      assert Live(s, v, b);
      LiveDepth(s, v, b);
      NodeKeyInjective(b.node, x.node);
      if x.node == n && FrameLess(x, b) && b.depth <= e {
        RetiredOnlyIfVisited(p, s, v, x, b, e);
      }
    }
    hide FrameLess;
    hide Node.Key;
  }

  lemma NextIsSound(p: Problem, f: Frame, step: Step)
    requires WellFormed(p) && FrameSound(p, f) && f.depth < p.policy.maxDepth
    requires step in p.steps(f.node) && step.next.Some?
    ensures FrameSound(p, NextFrame(f, step))
  {
    var c :| Explains(p, c, f);
    NextExplained(p, f, step, c);
  }

  lemma TakeStepSees(p: Problem, s: State, v: seq<Frame>, step: Step, n: Node, e: nat)
    requires Inv(p, s, v) && v != [] && s.stats.cutoffs == [] && Undisturbed(p, n, e)
    requires var f := v[|v| - 1]; f.depth < p.policy.maxDepth && step in p.steps(f.node)
    ensures var s' := TakeStep(p, v[|v| - 1], step, s);
            && (Seen(s, v, n, e) ==> Seen(s', v, n, e))
            && (step.next == Some(n) && v[|v| - 1].depth < e ==> Seen(s', v, n, e))
  {
    hide Undisturbed;
    hide FrameLess;
    var f := v[|v| - 1];
    var o := OfferStep(p, f, step, s);
    OfferStepInv(p, s, v, step);
    if step.next.Some? {
      assert Live(o, v, f) && FrameInv(p, o, f);
      NextIsSound(p, f, step);
      EnqueueSees(p, o, v, NextFrame(f, step), n, e);
    }
  }

  lemma {:induction false} TakeStepsSee(p: Problem, s: State, v: seq<Frame>, steps: seq<Step>, n: Node, e: nat)
    requires Inv(p, s, v) && v != [] && s.stats.cutoffs == [] && Undisturbed(p, n, e)
    requires Continues(p, v[|v| - 1], steps)
    ensures var (s', stop) := TakeSteps(p, v[|v| - 1], steps, s);
            && (Seen(s, v, n, e) ==> Seen(s', v, n, e))
            && (!stop && v[|v| - 1].depth < e && (exists step :: step in steps && step.next == Some(n))
                ==> Seen(s', v, n, e))
    decreases |steps|
  {
    hide Inv;
    hide TakeStep;
    hide Undisturbed;
    var f := v[|v| - 1];
    if steps != [] && s.stats.edges < p.policy.maxEdges && s.stats.candidates < p.policy.maxCandidates {
      TakeStepSees(p, s, v, steps[0], n, e);
      TakeStepKeeps(p, s, v, steps[0]);
      TakeStepsSee(p, TakeStep(p, f, steps[0], s), v, steps[1..], n, e);
      assert forall step :: step in steps ==> step == steps[0] || step in steps[1..];
    }
  }

  /* ---- the loop ---- */

  lemma SeenVisited(s: State, v: seq<Frame>, s': State, w: seq<Frame>, n: Node, e: nat)
    requires Seen(s, v, n, e) && s'.best == s.best && forall f :: f in v ==> f in w
    ensures Seen(s', w, n, e)
  {
  }

  lemma IterateArrives(p: Problem, s: State, v: seq<Frame>, n: Node, e: nat)
    requires Inv(p, s, v) && s.queue != [] && s.stats.cutoffs == [] && Undisturbed(p, n, e) && Arrives(p, s, v, n, e)
    ensures var (s', stop) := Iterate(p, s); !stop ==> Arrives(p, s', v + VisitedBy(p, s), n, e)
  {
    hide Inv;
    hide TakeSteps;
    hide Undisturbed;
    var f, w := s.queue[0], v + VisitedBy(p, s);
    if Visited(p, s) {
      assert w == v + [f] && w[|w| - 1] == f;
      VisitKeeps(p, s, v);
      if Seen(s, v, n, e) {
        SeenVisited(s, v, Visit(s), w, n, e);
      }
      if f.depth < p.policy.maxDepth {
        TakeStepsSee(p, Visit(s), w, p.steps(f.node), n, e);
      }
      if Feeds(p, w, n, e) {
        FeedsOneMore(p, v, f, n, e);
      }
    } else {
      assert w == v;
    }
  }

  lemma FeedsOneMore(p: Problem, v: seq<Frame>, f: Frame, n: Node, e: nat)
    requires Feeds(p, v + [f], n, e)
    ensures Feeds(p, v, n, e)
            || (f.depth < p.policy.maxDepth && f.depth < e
                && exists step :: step in p.steps(f.node) && step.next == Some(n))
  {
    var g, step :| FedBy(p, v + [f], n, e, g, step);
    assert g in v ==> FedBy(p, v, n, e, g, step);
  }

  lemma {:induction false} RunArrives(p: Problem, s: State, v: seq<Frame>, n: Node, e: nat)
    requires Inv(p, s, v) && s.stats.cutoffs == [] && Undisturbed(p, n, e) && Arrives(p, s, v, n, e)
    ensures Run(p, s).stats.cutoffs == [] ==> Arrives(p, Run(p, s), v + Visits(p, s), n, e)
    decreases Measure(p, s)
  {
    hide Inv;
    hide Iterate;
    hide VisitedBy;
    hide Arrives;
    hide Undisturbed;
    if s.queue == [] {
      assert v + [] == v;
    } else {
      var (t, stop) := Iterate(p, s);
      IterateKeeps(p, s, v);
      IterateArrives(p, s, v, n, e);
      IterateMeasure(p, s);
      if !stop {
        RunArrives(p, t, v + VisitedBy(p, s), n, e);
        assert v + Visits(p, s) == (v + VisitedBy(p, s)) + Visits(p, t);
      }
    }
  }

  /* ---- nodes are visited at their first levels ---- */

  ghost predicate VisitedWithin(p: Problem, n: Node, e: nat) {
    exists g :: g in AllVisits(p) && g.node == n && g.depth <= e
  }

  lemma BestIsVisited(p: Problem, n: Node, e: nat)
    requires WellFormed(p) && Drained(p) && n.Key() in Final(p).best
    requires Final(p).best[n.Key()].node == n && Final(p).best[n.Key()].depth <= e
    ensures VisitedWithin(p, n, e)
  {
    DrainClosure(p);
  }

  lemma FedNodeIsVisited(p: Problem, n: Node, e: nat)
    requires WellFormed(p) && Drained(p) && Undisturbed(p, n, e) && Feeds(p, AllVisits(p), n, e)
    ensures VisitedWithin(p, n, e)
  {
    InitInv(p);
    RunArrives(p, Init(p), [], n, e);
    assert [] + AllVisits(p) == AllVisits(p);
    hide Run;
    if !exists g :: g in AllVisits(p) && g.node == n && g.depth <= e {
      BestIsVisited(p, n, e);
    }
  }

  lemma CertainNodeIsVisited(p: Problem, n: Node, e: nat)
    requires WellFormed(p) && Drained(p) && e <= p.policy.maxDepth && NodeChain(p, n, e, Certain)
    ensures VisitedWithin(p, n, e)
  {
    hide Run;
    var c :| IsChain(p, c) && |c| == e && At(p, c, |c|) == Some(n) && TierRank(WorstTier(c)) <= TierRank(Certain);
    CertainChainIsFollowed(p, c);
    BestIsVisited(p, n, e);
  }

  lemma ChainToNode(p: Problem, c: seq<Step>, n: Node)
    requires IsChain(p, c) && At(p, c, |c|) == Some(n)
    ensures NodeChain(p, n, |c|, Possible) && (c == [] ==> NodeChain(p, n, 0, Certain))
  {
  }

  /** A visit to the node before the last brings one to the last. */
  lemma NextIsVisited(p: Problem, c: seq<Step>, n: Node, m: Node)
    requires WellFormed(p) && Drained(p) && Undisturbed(p, n, |c|) && c != [] && |c| < p.policy.maxDepth
    requires VisitedWithin(p, m, |c| - 1) && Last(c) in p.steps(m) && Last(c).next == Some(n)
    ensures VisitedWithin(p, n, |c|)
  {
    hide Run;
    hide Undisturbed;
    var g :| g in AllVisits(p) && g.node == m && g.depth <= |c| - 1;
    assert FedBy(p, AllVisits(p), n, |c|, g, Last(c));
    FedNodeIsVisited(p, n, |c|);
  }

  lemma {:induction false} VisitedInTime(p: Problem, c: seq<Step>, n: Node)
    requires WellFormed(p) && Drained(p) && NodeStepsWithin(p, Likely) && NoNearMiss(p)
    requires IsChain(p, c) && |c| < p.policy.maxDepth && At(p, c, |c|) == Some(n)
    ensures VisitedWithin(p, n, |c|)
    decreases |c|
  {
    hide Run;
    hide WellFormed;
    ChainToNode(p, c, n);
    if e: nat :| e < |c| && NodeChain(p, n, e, Possible) {
      var d :| IsChain(p, d) && |d| == e && At(p, d, |d|) == Some(n) && TierRank(WorstTier(d)) <= TierRank(Possible);
      VisitedInTime(p, d, n);
    } else if NodeChain(p, n, |c|, Certain) {
      CertainNodeIsVisited(p, n, |c|);
    } else {
      assert FirstLevel(p, n, |c|) && !NearMiss(p, n, |c|);
      hide NodeChain;
      PrefixChain(p, c);
      hide IsChain;
      VisitedInTime(p, c[..|c| - 1], At(p, c, |c| - 1).value);
      NextIsVisited(p, c, n, At(p, c, |c| - 1).value);
    }
  }

  /** Without a near miss below the cap, a drained search hits exactly what a chain within the cap
    leads to, whatever the scenario. */
  lemma CompleteWithoutNearMiss(p: Problem, key: string)
    requires WellFormed(p) && Drained(p) && NodeStepsWithin(p, Likely) && NoNearMiss(p) && key != p.seed.Key()
    ensures key in Final(p).kept <==> exists c :: EndsOn(p, c, key) && |c| <= p.policy.maxDepth
  {
    hide Run;
    hide NoNearMiss;
    forall c | EndsOn(p, c, key) && |c| <= p.policy.maxDepth ensures key in Final(p).kept {
      PrefixChain(p, c);
      var m := At(p, c, |c| - 1).value;
      VisitedInTime(p, c[..|c| - 1], m);
      var g :| g in AllVisits(p) && g.node == m && g.depth <= |c| - 1;
      DrainedRunIsClosed(p);
      assert Settled(p, Final(p), g, Last(c));
    }
    if key in Final(p).kept {
      var d := HitsAreSound(p, key);
    }
  }
}
