/** What every turn of the traversal keeps.

  `v` is the list of frames visited so far; each lemma takes one small move of the loop:
  dropping a stale frame, visiting a frame, taking one step, or recording a cutoff. */
module TraversalInvariants {
  import opened Ordering
  import opened ImpactModel
  import opened Traversal

  /** Not worse as a (tier, distance) pair. */
  predicate NoWorse(t: Tier, d: nat, t': Tier, d': nat) {
    TierRank(t) < TierRank(t') || (t == t' && d <= d')
  }

  /* ---- the invariant ---- */

  ghost predicate Live(s: State, v: seq<Frame>, f: Frame) {
    f in s.queue || f in v
  }

  /** Maps are keyed by their own content, and the seed entries never move. */
  ghost predicate Shape(p: Problem, s: State) {
    && p.seed.Key() in s.best && s.best[p.seed.Key()] == SeedFrame(p)
    && p.seed.Key() in s.kept && s.kept[p.seed.Key()] == SeedHit(p)
    && (forall k :: k in s.best ==> s.best[k].node.Key() == k)
    && (forall k :: k in s.kept ==> s.kept[k].entity.Key() == k && |s.kept[k].reasonPaths| == 1)
  }

  /** The chain `c` is the evidence of the frame `f`. */
  ghost predicate Explains(p: Problem, c: seq<Step>, f: Frame) {
    && IsChain(p, c)
    && At(p, c, |c|) == Some(f.node)
    && f.entity == (if c == [] then p.seedEntity else Last(c).entity)
    && f.path == EvidenceOf(p, c)
    && f.tier == WorstTier(c)
    && f.depth == |c|
    && f.score == (if c == [] then 1000 else DepthPenalty(Last(c).score, |c|))
  }

  ghost predicate FrameSound(p: Problem, f: Frame) {
    f.depth <= p.policy.maxDepth && f.entity.Key() == f.node.Key() && exists c :: Explains(p, c, f)
  }

  /** The chain `c` is the evidence of the hit `h`. */
  ghost predicate Supports(p: Problem, c: seq<Step>, h: Candidate) {
    && IsChain(p, c) && 0 < |c| <= p.policy.maxDepth
    && h.entity == Last(c).entity
    && h.reason == Last(c).reason
    && h.reasonPaths == [EvidenceOf(p, c)]
    && h.tier == WorstTier(c)
    && h.depth == h.shortest == |c|
    && (h.direct <==> |c| <= 1)
    && h.score == DepthPenalty(Last(c).score, |c|)
  }

  /** No entity occurs twice along a path, the seed included. */
  predicate SimplePath(seedKey: string, path: ReasonPath) {
    && (forall i :: 0 <= i < |path| ==> path[i].to.Key() != seedKey)
    && (forall i, j :: 0 <= i < j < |path| ==> path[i].to.Key() != path[j].to.Key())
  }

  ghost predicate HitSound(p: Problem, h: Candidate) {
    (exists c :: Supports(p, c, h)) && SimplePath(p.seed.Key(), h.reasonPaths[0])
  }

  /** The entity with key `k` is recorded, as a node and as a hit, no worse than (t, d). */
  ghost predicate Recorded(s: State, k: string, t: Tier, d: nat) {
    && k in s.best && NoWorse(s.best[k].tier, s.best[k].depth, t, d)
    && k in s.kept && NoWorse(s.kept[k].tier, s.kept[k].shortest, t, d)
  }

  /** Every entity along the evidence of a frame was recorded on the way. */
  ghost predicate Anchored(p: Problem, s: State, f: Frame) {
    && |f.path| == f.depth
    && SimplePath(p.seed.Key(), f.path)
    && forall i :: 0 <= i < |f.path| ==> Recorded(s, f.path[i].to.Key(), f.tier, i + 1)
  }

  /** The frame is the best of its node, or has been strictly beaten. */
  ghost predicate Beaten(s: State, f: Frame) {
    f.node.Key() in s.best && (s.best[f.node.Key()] == f || FrameLess(s.best[f.node.Key()], f))
  }

  ghost predicate FrameInv(p: Problem, s: State, f: Frame) {
    FrameSound(p, f) && Anchored(p, s, f) && Beaten(s, f)
  }

  ghost predicate FramesInv(p: Problem, s: State, v: seq<Frame>) {
    forall f :: Live(s, v, f) ==> FrameInv(p, s, f)
  }

  ghost predicate HitsInv(p: Problem, s: State) {
    forall k :: k in s.kept && k != p.seed.Key() ==> HitSound(p, s.kept[k])
  }

  /** `later` replaced `earlier` as the best frame of its node. */
  predicate Supersedes(later: Frame, earlier: Frame) {
    later.node.Key() == earlier.node.Key() ==> FrameLess(later, earlier)
  }

  /** ... and did so after `earlier` had been visited, hence from a deeper level. */
  predicate Revisits(later: Frame, earlier: Frame) {
    later.node.Key() == earlier.node.Key() ==> FrameLess(later, earlier) && earlier.depth < later.depth
  }

  ghost predicate QueueOrder(q: seq<Frame>) {
    forall i, j :: 0 <= i < j < |q| ==> q[i].depth <= q[j].depth && Supersedes(q[j], q[i])
  }

  ghost predicate VisitOrder(v: seq<Frame>) {
    forall i, j :: 0 <= i < j < |v| ==> v[i].depth <= v[j].depth && Revisits(v[j], v[i])
  }

  ghost predicate VisitedBefore(q: seq<Frame>, v: seq<Frame>) {
    forall i, j :: 0 <= i < |v| && 0 <= j < |q| ==> v[i].depth <= q[j].depth && Revisits(q[j], v[i])
  }

  /** Queued frames are at most one level below the last visited one. */
  ghost predicate OneLevel(q: seq<Frame>, v: seq<Frame>) {
    forall j :: 0 <= j < |q| ==> q[j].depth <= if v == [] then 0 else v[|v| - 1].depth + 1
  }

  ghost predicate Order(s: State, v: seq<Frame>) {
    QueueOrder(s.queue) && VisitOrder(v) && VisitedBefore(s.queue, v) && OneLevel(s.queue, v)
  }

  /** As long as no budget was met, a best frame is still queued or has been visited. */
  ghost predicate BestSeen(s: State, v: seq<Frame>) {
    s.stats.cutoffs == [] ==> forall k :: k in s.best ==> Live(s, v, s.best[k])
  }

  /** Best frames rest on evidence too, even one that a budget dropped when it was popped. */
  ghost predicate BestSound(p: Problem, s: State) {
    forall k :: k in s.best ==> FrameSound(p, s.best[k])
  }

  ghost predicate Inv(p: Problem, s: State, v: seq<Frame>) {
    && WellFormed(p) && Shape(p, s)
    && FramesInv(p, s, v) && HitsInv(p, s) && BestSound(p, s) && Order(s, v) && BestSeen(s, v)
  }

  /* ---- entries only improve ---- */

  ghost predicate Improves(s: State, s': State) {
    && (forall k :: k in s.best ==> k in s'.best && (s'.best[k] == s.best[k] || FrameLess(s'.best[k], s.best[k])))
    && (forall k :: k in s.kept ==> k in s'.kept && (s'.kept[k] == s.kept[k] || OfferLess(s'.kept[k], s.kept[k])))
  }

  lemma ImprovesTransitive(a: State, b: State, c: State)
    requires Improves(a, b) && Improves(b, c)
    ensures Improves(a, c)
  {
    forall k | k in a.best ensures c.best[k] == a.best[k] || FrameLess(c.best[k], a.best[k]) {
      if FrameLess(c.best[k], b.best[k]) && FrameLess(b.best[k], a.best[k]) {
        FrameLessTransitive(c.best[k], b.best[k], a.best[k]);
      }
    }
    forall k | k in a.kept ensures c.kept[k] == a.kept[k] || OfferLess(c.kept[k], a.kept[k]) {
      if OfferLess(c.kept[k], b.kept[k]) && OfferLess(b.kept[k], a.kept[k]) {
        OfferLessTransitive(c.kept[k], b.kept[k], a.kept[k]);
      }
    }
  }

  lemma RecordedImproves(s: State, s': State, k: string, t: Tier, d: nat)
    requires Improves(s, s') && Recorded(s, k, t, d)
    ensures Recorded(s', k, t, d)
  {
  }

  lemma BeatenImproves(s: State, s': State, f: Frame)
    requires Improves(s, s') && Beaten(s, f)
    ensures Beaten(s', f)
  {
    var k := f.node.Key();
    if FrameLess(s'.best[k], s.best[k]) && FrameLess(s.best[k], f) {
      FrameLessTransitive(s'.best[k], s.best[k], f);
    }
  }

  lemma FrameInvImproves(p: Problem, s: State, s': State, f: Frame)
    requires Improves(s, s') && FrameInv(p, s, f)
    ensures FrameInv(p, s', f)
  {
    BeatenImproves(s, s', f);
    forall i | 0 <= i < |f.path| ensures Recorded(s', f.path[i].to.Key(), f.tier, i + 1) {
      RecordedImproves(s, s', f.path[i].to.Key(), f.tier, i + 1);
    }
  }

  /* ---- offering a step ---- */

  lemma AddCandidateEffect(kept: map<string, Candidate>, c: Candidate)
    requires forall k :: k in kept ==> |kept[k].reasonPaths| == 1
    ensures var kept', key := AddCandidate(kept, c), c.entity.Key();
            && kept'.Keys == kept.Keys + {key}
            && (forall k :: k in kept && k != key ==> kept'[k] == kept[k])
            && (kept'[key] == c || (key in kept && kept'[key] == kept[key]))
            && (key in kept && kept'[key] != kept[key] ==> OfferLess(c, kept[key]))
            && !OfferLess(c, kept'[key])
  {
    OfferLessIrreflexive(c);
  }

  /** The evidence of a frame, extended by one step, is the evidence of the next frame ... */
  lemma NextExplained(p: Problem, f: Frame, step: Step, c: seq<Step>)
    requires Explains(p, c, f) && step in p.steps(f.node)
    ensures IsChain(p, c + [step]) && Extend(f, step) == EvidenceOf(p, c + [step])
    ensures Combine(f.tier, step.tier) == WorstTier(c + [step])
    ensures step.next.Some? ==> Explains(p, c + [step], NextFrame(f, step))
  {
    ExtendChain(p, c, step);
    ExtendEvidence(p, c, step);
    assert At(p, c + [step], |c| + 1) == step.next;
  }

  lemma OfferLength(p: Problem, f: Frame, step: Step)
    requires WellFormed(p) && FrameSound(p, f) && step in p.steps(f.node)
    ensures OfferOf(p, f, step).shortest == f.depth + 1
  {
    var c :| Explains(p, c, f);
    NextExplained(p, f, step, c);
    var d, path := c + [step], Extend(f, step);
    assert Leaves(p, d, 0) && path[0].kind == d[0].reason != Seed;
    assert PathLength(path) == f.depth + 1;
    assert ShortestReasonPath([path][1..], f.depth + 1) == f.depth + 1;
  }

  /** ... and supports the offered hit. */
  lemma OfferSupported(p: Problem, f: Frame, step: Step, c: seq<Step>)
    requires WellFormed(p) && FrameSound(p, f) && Explains(p, c, f)
    requires f.depth < p.policy.maxDepth && step in p.steps(f.node)
    ensures Supports(p, c + [step], OfferOf(p, f, step))
  {
    NextExplained(p, f, step, c);
    OfferLength(p, f, step);
    assert Last(c + [step]) == step;
  }

  /** A repeated entity is never taken up: what is recorded for it is already better. */
  lemma OfferRepeatsNothing(p: Problem, s: State, f: Frame, step: Step)
    requires Anchored(p, s, f) && OfferOf(p, f, step).shortest == f.depth + 1
    requires step.entity.Key() != p.seed.Key()
    requires step.entity.Key() in s.kept ==> OfferLess(OfferOf(p, f, step), s.kept[step.entity.Key()])
    ensures SimplePath(p.seed.Key(), Extend(f, step))
  {
    var path, key := Extend(f, step), step.entity.Key();
    forall i | 0 <= i < |f.path| ensures path[i].to.Key() != key {
      assert Recorded(s, f.path[i].to.Key(), f.tier, i + 1);
    }
  }

  /** The offer made for a step, or something no worse, is kept. */
  ghost predicate Offered(p: Problem, s: State, f: Frame, step: Step) {
    var key := step.entity.Key();
    key != p.seed.Key() ==>
      && key in s.kept
      && !OfferLess(OfferOf(p, f, step), s.kept[key])
      && NoWorse(s.kept[key].tier, s.kept[key].shortest, Combine(f.tier, step.tier), f.depth + 1)
  }

  lemma KeptNoWorse(offer: Candidate, kept: Candidate)
    requires !OfferLess(offer, kept)
    ensures NoWorse(kept.tier, kept.shortest, offer.tier, offer.shortest)
  {
  }

  lemma OfferStepKeeps(p: Problem, s: State, f: Frame, step: Step)
    requires WellFormed(p) && Shape(p, s) && HitsInv(p, s) && FrameInv(p, s, f)
    requires f.depth < p.policy.maxDepth && step in p.steps(f.node)
    ensures var s' := OfferStep(p, f, step, s); Shape(p, s') && HitsInv(p, s') && Improves(s, s')
    ensures Offered(p, OfferStep(p, f, step, s), f, step)
  {
    hide OfferLess;
    hide NoWorse;
    hide SimplePath;
    hide Supports;
    hide Explains;
    hide Anchored;
    hide Beaten;
    var c :| Explains(p, c, f);
    OfferSupported(p, f, step, c);
    OfferLength(p, f, step);
    var s', key, offer := OfferStep(p, f, step, s), step.entity.Key(), OfferOf(p, f, step);
    if key != p.seed.Key() {
      AddCandidateEffect(s.kept, offer);
      KeptNoWorse(offer, s'.kept[key]);
      if s'.kept[key] == offer && (key in s.kept ==> OfferLess(offer, s.kept[key])) {
        OfferRepeatsNothing(p, s, f, step);
        assert HitSound(p, offer);
      }
      forall k | k in s'.kept && k != p.seed.Key() ensures HitSound(p, s'.kept[k]) {
        assert k == key || k in s.kept;
      }
    }
  }

  /* ---- queueing the next frame ---- */

  lemma EnqueueImproves(p: Problem, s: State, x: Frame)
    requires Shape(p, s) && x.depth > 0
    ensures var s' := Enqueue(s, x); Shape(p, s') && Improves(s, s')
    ensures var s', key := Enqueue(s, x), x.node.Key();
            && key in s'.best && !FrameLess(x, s'.best[key])
            && NoWorse(s'.best[key].tier, s'.best[key].depth, x.tier, x.depth)
  {
    FrameLessIrreflexive(x, x);
  }

  /** A frame that is queued closes no cycle. */
  lemma EnqueuedIsSimple(p: Problem, s: State, f: Frame, step: Step)
    requires Shape(p, s) && WellFormed(p) && Anchored(p, s, f)
    requires step.next.Some? && step.next.value.Key() == step.entity.Key()
    requires var x := NextFrame(f, step); x.node.Key() in s.best ==> FrameLess(x, s.best[x.node.Key()])
    ensures SimplePath(p.seed.Key(), Extend(f, step))
  {
    var path, key := Extend(f, step), step.entity.Key();
    forall i | 0 <= i < |f.path| ensures path[i].to.Key() != key {
      assert Recorded(s, f.path[i].to.Key(), f.tier, i + 1);
    }
  }

  lemma NextFrameInv(p: Problem, s: State, s': State, f: Frame, step: Step)
    requires WellFormed(p) && Shape(p, s) && FrameInv(p, s, f)
    requires f.depth < p.policy.maxDepth && step in p.steps(f.node) && step.next.Some?
    requires var x := NextFrame(f, step); x.node.Key() in s.best ==> FrameLess(x, s.best[x.node.Key()])
    requires Improves(s, s') && Recorded(s', step.entity.Key(), Combine(f.tier, step.tier), f.depth + 1)
    requires s'.best[step.entity.Key()] == NextFrame(f, step)
    ensures FrameInv(p, s', NextFrame(f, step))
  {
    var x := NextFrame(f, step);
    var c :| Explains(p, c, f);
    NextExplained(p, f, step, c);
    EnqueuedIsSimple(p, s, f, step);
    forall i | 0 <= i < |x.path| ensures Recorded(s', x.path[i].to.Key(), x.tier, i + 1) {
      if i < |f.path| {
        assert Recorded(s, f.path[i].to.Key(), f.tier, i + 1);
        RecordedImproves(s, s', f.path[i].to.Key(), f.tier, i + 1);
      }
    }
  }

  lemma EnqueueOrder(s: State, v: seq<Frame>, x: Frame)
    requires Order(s, v) && v != [] && x.depth == v[|v| - 1].depth + 1
    requires forall f :: Live(s, v, f) ==> Beaten(s, f)
    ensures Order(Enqueue(s, x), v)
  {
    var s', key := Enqueue(s, x), x.node.Key();
    if s'.queue != s.queue {
      forall f | Live(s, v, f) ensures Supersedes(x, f) {
        if f.node.Key() == key && FrameLess(x, s.best[key]) && FrameLess(s.best[key], f) {
          FrameLessTransitive(x, s.best[key], f);
        }
      }
      forall i | 0 <= i < |s.queue| ensures Supersedes(x, s.queue[i]) {
        assert Live(s, v, s.queue[i]);
      }
      forall i | 0 <= i < |v| ensures Revisits(x, v[i]) && v[i].depth <= x.depth {
        assert Live(s, v, v[i]);
        assert v[i].depth <= v[|v| - 1].depth;
      }
    }
  }

  /* ---- one step of the inner loop ---- */

  /** Frames keep their properties when entries only improve and no new frame appears. */
  lemma FramesInvImproves(p: Problem, s: State, v: seq<Frame>, s': State, v': seq<Frame>)
    requires FramesInv(p, s, v) && Improves(s, s') && forall g :: Live(s', v', g) ==> Live(s, v, g)
    ensures FramesInv(p, s', v')
  {
    forall g | Live(s', v', g) ensures FrameInv(p, s', g) {
      FrameInvImproves(p, s, s', g);
    }
  }

  lemma OfferStepInv(p: Problem, s: State, v: seq<Frame>, step: Step)
    requires Inv(p, s, v) && v != [] && s.stats.cutoffs == []
    requires var f := v[|v| - 1]; f.depth < p.policy.maxDepth && step in p.steps(f.node)
    ensures var s' := OfferStep(p, v[|v| - 1], step, s);
            Inv(p, s', v) && Improves(s, s') && Offered(p, s', v[|v| - 1], step)
  {
    var f := v[|v| - 1];
    assert Live(s, v, f);
    var o := OfferStep(p, f, step, s);
    OfferStepKeeps(p, s, f, step);
    FramesInvImproves(p, s, v, o, v);
    forall k | k in o.best ensures Live(o, v, o.best[k]) {
      assert Live(s, v, s.best[k]);
    }
  }

  lemma TakeStepKeeps(p: Problem, s: State, v: seq<Frame>, step: Step)
    requires Inv(p, s, v) && v != [] && s.stats.cutoffs == []
    requires var f := v[|v| - 1]; f.depth < p.policy.maxDepth && step in p.steps(f.node)
    ensures var s' := TakeStep(p, v[|v| - 1], step, s); Inv(p, s', v) && Improves(s, s')
    ensures TakeStep(p, v[|v| - 1], step, s).stats.cutoffs == []
  {
    hide Inv;
    OfferStepInv(p, s, v, step);
    if step.next.Some? {
      var o := OfferStep(p, v[|v| - 1], step, s);
      EnqueueKeeps(p, o, v, step);
      ImprovesTransitive(s, o, Enqueue(o, NextFrame(v[|v| - 1], step)));
    }
  }

  lemma EnqueueFrames(p: Problem, s: State, v: seq<Frame>, f: Frame, step: Step)
    requires WellFormed(p) && Shape(p, s) && FramesInv(p, s, v) && Live(s, v, f) && Offered(p, s, f, step)
    requires f.depth < p.policy.maxDepth && step in p.steps(f.node) && step.next.Some?
    ensures FramesInv(p, Enqueue(s, NextFrame(f, step)), v)
  {
    var x := NextFrame(f, step);
    var s' := Enqueue(s, x);
    EnqueueImproves(p, s, x);
    forall g | Live(s', v, g) ensures FrameInv(p, s', g) {
      if Live(s, v, g) {
        FrameInvImproves(p, s, s', g);
      } else {
        assert g == x && FrameInv(p, s, f);
        NextFrameInv(p, s, s', f, step);
      }
    }
  }

  lemma EnqueueSeen(s: State, v: seq<Frame>, x: Frame)
    requires BestSeen(s, v)
    ensures BestSeen(Enqueue(s, x), v)
  {
    var s' := Enqueue(s, x);
    if s.stats.cutoffs == [] {
      forall k | k in s'.best ensures Live(s', v, s'.best[k]) {
        if k in s.best && s'.best[k] == s.best[k] {
          assert Live(s, v, s.best[k]);
        } else {
          assert s'.queue[|s'.queue| - 1] == x;
        }
      }
    }
  }

  lemma EnqueueBestSound(p: Problem, s: State, v: seq<Frame>, x: Frame)
    requires BestSound(p, s) && FramesInv(p, Enqueue(s, x), v)
    ensures BestSound(p, Enqueue(s, x))
  {
    var s' := Enqueue(s, x);
    forall k | k in s'.best ensures FrameSound(p, s'.best[k]) {
      if !(k in s.best && s'.best[k] == s.best[k]) {
        assert x == s'.queue[|s'.queue| - 1] && Live(s', v, x);
        assert FrameInv(p, s', x);
      }
    }
  }

  lemma LiveBeaten(p: Problem, s: State, v: seq<Frame>)
    requires FramesInv(p, s, v)
    ensures forall g :: Live(s, v, g) ==> Beaten(s, g)
  {
    forall g | Live(s, v, g) ensures Beaten(s, g) {
      assert FrameInv(p, s, g);
    }
  }

  lemma EnqueueKeeps(p: Problem, s: State, v: seq<Frame>, step: Step)
    requires Inv(p, s, v) && v != []
    requires var f := v[|v| - 1]; f.depth < p.policy.maxDepth && step in p.steps(f.node) && step.next.Some?
    requires Offered(p, s, v[|v| - 1], step)
    ensures var s' := Enqueue(s, NextFrame(v[|v| - 1], step)); Inv(p, s', v) && Improves(s, s')
  {
    hide FramesInv;
    var f := v[|v| - 1];
    var x := NextFrame(f, step);
    assert Live(s, v, f);
    EnqueueImproves(p, s, x);
    EnqueueFrames(p, s, v, f, step);
    EnqueueBestSound(p, s, v, x);
    EnqueueSeen(s, v, x);
    LiveBeaten(p, s, v);
    EnqueueOrder(s, v, x);
  }

  /* ---- popping ---- */

  /** A stale frame has been strictly beaten; a fresh one is the best of its node. */
  lemma StaleMeansBeaten(s: State, f: Frame)
    requires Beaten(s, f)
    ensures Stale(s, f) <==> s.best[f.node.Key()] != f
  {
    if !Stale(s, f) {
      FrameLessIrreflexive(s.best[f.node.Key()], f);
    }
  }

  lemma DropKeepsOrder(s: State, v: seq<Frame>)
    requires Order(s, v) && s.queue != []
    ensures Order(s.(queue := s.queue[1..]), v)
  {
    var q := s.queue[1..];
    forall j | 0 <= j < |q| ensures q[j] == s.queue[j + 1] {}
  }

  lemma DropStaleKeeps(p: Problem, s: State, v: seq<Frame>)
    requires Inv(p, s, v) && s.queue != [] && Stale(s, s.queue[0])
    ensures Inv(p, s.(queue := s.queue[1..]), v)
  {
    var s' := s.(queue := s.queue[1..]);
    assert Live(s, v, s.queue[0]);
    StaleMeansBeaten(s, s.queue[0]);
    DropKeepsOrder(s, v);
    FramesInvImproves(p, s, v, s', v);
    if s.stats.cutoffs == [] {
      forall k | k in s.best ensures Live(s', v, s.best[k]) {
        assert Live(s, v, s.best[k]);
        assert s.best[k] != s.queue[0];
      }
    }
  }

  lemma VisitKeepsOrder(s: State, v: seq<Frame>)
    requires Order(s, v) && s.queue != []
    requires forall f :: Live(s, v, f) ==> Beaten(s, f)
    requires s.queue[0].node.Key() in s.best && s.best[s.queue[0].node.Key()] == s.queue[0]
    ensures Order(Visit(s), v + [s.queue[0]])
  {
    var f, q, v' := s.queue[0], s.queue[1..], v + [s.queue[0]];
    forall j | 0 <= j < |q| ensures f.depth <= q[j].depth && Revisits(q[j], f) {
      assert q[j] == s.queue[j + 1] && Live(s, v, q[j]);
      if q[j].node.Key() == f.node.Key() {
        if FrameLess(f, q[j]) {
          FrameLessTransitive(f, q[j], f);
        }
        FrameLessIrreflexive(f, f);
      }
    }
    forall j | 0 <= j < |q| ensures q[j].depth <= f.depth + 1 {
      assert q[j] == s.queue[j + 1];
      assert v != [] ==> v[|v| - 1].depth <= f.depth;
    }
  }

  lemma VisitLive(s: State, v: seq<Frame>)
    requires s.queue != []
    ensures forall g :: Live(Visit(s), v + [s.queue[0]], g) <==> Live(s, v, g)
  {
    forall g ensures Live(Visit(s), v + [s.queue[0]], g) <==> Live(s, v, g) {
      assert s.queue == [s.queue[0]] + s.queue[1..];
    }
  }

  /** What only concerns the recorded entries. */
  lemma EntriesKeep(p: Problem, s: State, s': State)
    requires s'.best == s.best && s'.kept == s.kept
    requires Shape(p, s) && HitsInv(p, s) && BestSound(p, s)
    ensures Shape(p, s') && HitsInv(p, s') && BestSound(p, s') && Improves(s, s')
  {
  }

  lemma VisitKeeps(p: Problem, s: State, v: seq<Frame>)
    requires Inv(p, s, v) && s.queue != [] && !Stale(s, s.queue[0])
    ensures Inv(p, Visit(s), v + [s.queue[0]])
  {
    var f, s', v' := s.queue[0], Visit(s), v + [s.queue[0]];
    hide FramesInv;
    hide HitsInv;
    hide BestSound;
    hide Order;
    hide WellFormed;
    assert Live(s, v, f);
    LiveBeaten(p, s, v);
    StaleMeansBeaten(s, f);
    VisitKeepsOrder(s, v);
    VisitLive(s, v);
    EntriesKeep(p, s, s');
    FramesInvImproves(p, s, v, s', v');
  }

  /* ---- the loops ---- */

  /** The steps leave the node of a frame that is below the depth cap. */
  ghost predicate Continues(p: Problem, f: Frame, steps: seq<Step>) {
    f.depth < p.policy.maxDepth && forall step :: step in steps ==> step in p.steps(f.node)
  }

  lemma {:induction false} TakeStepsKeeps(p: Problem, s: State, v: seq<Frame>, steps: seq<Step>)
    requires Inv(p, s, v) && v != [] && s.stats.cutoffs == []
    requires Continues(p, v[|v| - 1], steps)
    ensures var (s', stop) := TakeSteps(p, v[|v| - 1], steps, s);
            Inv(p, s', v) && Improves(s, s') && (stop <==> s'.stats.cutoffs != [])
    decreases |steps|
  {
    hide Inv;
    hide TakeStep;
    var f := v[|v| - 1];
    if steps != [] {
      if s.stats.edges >= p.policy.maxEdges || s.stats.candidates >= p.policy.maxCandidates {
        CutoffKeeps(p, s, TakeSteps(p, f, steps, s).0, v);
      } else {
        var t := TakeStep(p, f, steps[0], s);
        TakeStepKeeps(p, s, v, steps[0]);
        TakeStepsKeeps(p, t, v, steps[1..]);
        ImprovesTransitive(s, t, TakeSteps(p, f, steps, s).0);
      }
    }
  }

  lemma CutoffKeeps(p: Problem, s: State, s': State, v: seq<Frame>)
    requires Inv(p, s, v) && s'.stats.cutoffs != []
    requires s'.best == s.best && s'.kept == s.kept
    requires s'.queue == s.queue || (s.queue != [] && s'.queue == s.queue[1..])
    ensures Inv(p, s', v) && Improves(s, s')
  {
    if s'.queue != s.queue {
      DropKeepsOrder(s, v);
    }
    FramesInvImproves(p, s, v, s', v);
  }

  lemma IterateKeeps(p: Problem, s: State, v: seq<Frame>)
    requires Inv(p, s, v) && s.queue != [] && s.stats.cutoffs == []
    ensures var (s', stop) := Iterate(p, s); Inv(p, s', v + VisitedBy(p, s)) && (stop <==> s'.stats.cutoffs != [])
  {
    hide Inv;
    hide TakeSteps;
    hide Stale;
    if Stale(s, s.queue[0]) {
      DropStaleKeeps(p, s, v);
      assert v + VisitedBy(p, s) == v;
    } else if s.stats.nodes >= p.policy.maxNodes {
      CutoffKeeps(p, s, Iterate(p, s).0, v);
      assert v + VisitedBy(p, s) == v;
    } else {
      ExpandKeeps(p, s, v);
    }
  }

  lemma ExpandKeeps(p: Problem, s: State, v: seq<Frame>)
    requires Inv(p, s, v) && s.queue != [] && s.stats.cutoffs == [] && Visited(p, s)
    ensures var (s', stop) := Iterate(p, s); Inv(p, s', v + [s.queue[0]]) && (stop <==> s'.stats.cutoffs != [])
  {
    hide Inv;
    hide TakeSteps;
    hide Stale;
    var f, w := s.queue[0], v + [s.queue[0]];
    VisitKeeps(p, s, v);
    assert w[|w| - 1] == f;
    if f.depth < p.policy.maxDepth {
      TakeStepsKeeps(p, Visit(s), w, p.steps(f.node));
    }
  }

  lemma {:induction false} RunKeeps(p: Problem, s: State, v: seq<Frame>)
    requires Inv(p, s, v) && s.stats.cutoffs == []
    ensures Inv(p, Run(p, s), v + Visits(p, s))
    decreases Measure(p, s)
  {
    hide Inv;
    hide Iterate;
    hide VisitedBy;
    if s.queue == [] {
      assert v + [] == v;
    } else {
      var (t, stop) := Iterate(p, s);
      IterateKeeps(p, s, v);
      IterateMeasure(p, s);
      var w := v + VisitedBy(p, s);
      if stop {
        assert v + Visits(p, s) == w;
      } else {
        RunKeeps(p, t, w);
        assert v + Visits(p, s) == w + Visits(p, t);
      }
    }
  }

  lemma InitInv(p: Problem)
    requires WellFormed(p)
    ensures Inv(p, Init(p), [])
  {
    var s := Init(p);
    forall f | Live(s, [], f) ensures FrameInv(p, s, f) {
      assert f == SeedFrame(p);
      assert Explains(p, [], f);
    }
    assert Live(s, [], SeedFrame(p));
  }
}
