/** A graph on which one file is reached twice: at once, through a Likely step, and by a detour over
  a symbol that it declares, through Certain steps only.

  The detour's frame is a step deeper but in the better tier, so it supersedes the early frame
  before that one is popped; the file is expanded one step too late, or not at all. */
module Detours {
  import opened Ordering
  import opened ImpactModel
  import opened Traversal
  import opened TraversalTheorems

  /** The i-th step at `from` leads to `to` in this tier. */
  predicate Leads(p: Problem, from: Node, i: nat, to: Node, tier: Tier) {
    i < |p.steps(from)| && p.steps(from)[i].next == Some(to) && p.steps(from)[i].tier == tier
  }

  function Along(p: Problem, f: Frame, i: nat): Frame
    requires i < |p.steps(f.node)| && p.steps(f.node)[i].next.Some?
  {
    NextFrame(f, p.steps(f.node)[i])
  }

  /** The seed is declared in file `a`, along with `m`; symbol `f`, declared in file `b` along with
    `n`, refers to the seed, and so does `b` itself.  File `c` depends on `b`. */
  datatype Detour = Detour(f: Node, a: Node, b: Node, c: Node, m: Node, n: Node) {
    ghost predicate In(p: Problem) {
      && WellFormed(p) && Distinct(p.seed) && 2 <= p.policy.maxDepth <= 3
      && 20 <= p.policy.maxNodes && 20 <= p.policy.maxEdges && 20 <= p.policy.maxCandidates
      && |p.steps(p.seed)| == 3 && Leads(p, p.seed, 0, f, Certain) && Leads(p, p.seed, 1, a, Certain)
      && Leads(p, p.seed, 2, b, Likely)
      && |p.steps(f)| == 1 && Leads(p, f, 0, b, Certain)
      && |p.steps(a)| == 3 && Leads(p, a, 0, p.seed, Certain) && Leads(p, a, 1, m, Certain) && Leads(p, a, 2, b, Likely)
      && |p.steps(b)| == 4 && Leads(p, b, 0, p.seed, Certain) && Leads(p, b, 1, f, Certain)
      && Leads(p, b, 2, n, Certain) && Leads(p, b, 3, c, Likely)
      && |p.steps(m)| == 1 && Leads(p, m, 0, a, Certain)
    }

    ghost predicate Distinct(seed: Node) {
      && f !in {seed} && a !in {seed, f} && b !in {seed, f, a} && m !in {seed, f, a, b}
      && n !in {seed, f, a, b, m} && c !in {seed, f, a, b, m, n}
    }

    ghost function ToF(p: Problem): Frame requires In(p) { Along(p, SeedFrame(p), 0) }

    ghost function ToA(p: Problem): Frame requires In(p) { Along(p, SeedFrame(p), 1) }

    ghost function Early(p: Problem): Frame requires In(p) { Along(p, SeedFrame(p), 2) }

    ghost function Late(p: Problem): Frame requires In(p) { Along(p, ToF(p), 0) }

    ghost function ToM(p: Problem): Frame requires In(p) { Along(p, ToA(p), 1) }

    ghost function ToN(p: Problem): Frame requires In(p) { Along(p, Late(p), 2) }

    ghost function ToC(p: Problem): Frame requires In(p) { Along(p, Late(p), 3) }

    /** The best frames after the seed was expanded. */
    ghost function Bests(p: Problem): map<string, Frame> requires In(p) {
      map[p.seed.Key() := SeedFrame(p)][f.Key() := ToF(p)][a.Key() := ToA(p)][b.Key() := Early(p)]
    }
  }

  predicate Roomy(s: State, used: nat) {
    s.stats.nodes <= used && s.stats.edges <= used && s.stats.candidates <= used + 1 && s.stats.cutoffs == []
  }

  lemma KeysDiffer()
    ensures forall x: Node, y: Node :: x.Key() == y.Key() ==> x == y
  {
    forall x: Node, y: Node | x.Key() == y.Key() ensures x == y {
      NodeKeyInjective(x, y);
    }
  }

  /** One step of the inner loop, on queue and best frames. */
  lemma Follow(p: Problem, f: Frame, i: nat, s: State, used: nat) returns (s': State)
    requires WellFormed(p) && i < |p.steps(f.node)| && p.steps(f.node)[i].next.Some?
    requires Roomy(s, used) && used + 1 < p.policy.maxEdges && used + 1 < p.policy.maxCandidates
    ensures TakeSteps(p, f, p.steps(f.node)[i..], s) == TakeSteps(p, f, p.steps(f.node)[i + 1..], s')
    ensures Roomy(s', used + 1)
    ensures var x := Along(p, f, i); var key := x.node.Key();
            && s'.kept.Keys <= s.kept.Keys + {key}
            && if key !in s.best || FrameLess(x, s.best[key])
               then s'.queue == s.queue + [x] && s'.best == s.best[key := x]
               else s'.queue == s.queue && s'.best == s.best
  {
    var steps := p.steps(f.node);
    assert steps[i..][0] == steps[i] && steps[i..][1..] == steps[i + 1..];
    assert steps[i] in steps;
    s' := TakeStep(p, f, steps[i], s);
  }

  lemma EndOfSteps(p: Problem, f: Frame, s: State)
    ensures TakeSteps(p, f, p.steps(f.node)[|p.steps(f.node)|..], s) == (s, false)
    ensures p.steps(f.node)[0..] == p.steps(f.node)
  {
  }

  ghost predicate Known(p: Problem, d: Detour, s: State, extra: set<string>)
    requires d.In(p)
  {
    s.kept.Keys <= {p.seed.Key(), d.f.Key(), d.a.Key(), d.b.Key(), d.m.Key()} + extra
  }

  /* ---- turn by turn ---- */

  lemma InitIsRoomy(p: Problem)
    requires WellFormed(p)
    ensures Roomy(Visit(Init(p)), 1) && Visit(Init(p)).kept.Keys == {p.seed.Key()}
  {
  }

  lemma SeedTurn(p: Problem, d: Detour) returns (s: State)
    requires d.In(p)
    ensures Run(p, Init(p)) == Run(p, s) && Roomy(s, 4) && Known(p, d, s, {})
    ensures s.queue == [d.ToF(p), d.ToA(p), d.Early(p)] && s.best == d.Bests(p)
  {
    hide FrameLess;
    hide Node.Key;
    hide Entity.Key;
    hide DepthPenalty;
    hide Extend;
    hide WellFormed;
    hide TakeSteps;
    hide PathText;
    KeysDiffer();
    InitIsRoomy(p);
    var f, v := SeedFrame(p), Visit(Init(p));
    EndOfSteps(p, f, v);
    var s1 := Follow(p, f, 0, v, 1);
    var s2 := Follow(p, f, 1, s1, 2);
    s := Follow(p, f, 2, s2, 3);
    EndOfSteps(p, f, s);
    assert !Stale(Init(p), f);
    assert Iterate(p, Init(p)) == (s, false);
  }

  /** The detour supersedes the early frame. */
  lemma SymbolTurn(p: Problem, d: Detour, s: State) returns (s': State)
    requires d.In(p) && Roomy(s, 4) && Known(p, d, s, {})
    requires s.queue == [d.ToF(p), d.ToA(p), d.Early(p)] && s.best == d.Bests(p)
    ensures Run(p, s) == Run(p, s') && Roomy(s', 6) && Known(p, d, s', {})
    ensures s'.queue == [d.ToA(p), d.Early(p), d.Late(p)] && s'.best == d.Bests(p)[d.b.Key() := d.Late(p)]
  {
    hide Node.Key;
    hide Entity.Key;
    hide DepthPenalty;
    hide Extend;
    hide WellFormed;
    hide TakeSteps;
    hide PathText;
    KeysDiffer();
    var f, v := d.ToF(p), Visit(s);
    EndOfSteps(p, f, v);
    s' := Follow(p, f, 0, v, 5);
    EndOfSteps(p, f, s');
    assert Iterate(p, s) == (s', false);
  }

  lemma FileTurn(p: Problem, d: Detour, s: State) returns (s': State)
    requires d.In(p) && Roomy(s, 6) && Known(p, d, s, {})
    requires s.queue == [d.ToA(p), d.Early(p), d.Late(p)] && s.best == d.Bests(p)[d.b.Key() := d.Late(p)]
    ensures Run(p, s) == Run(p, s') && Roomy(s', 10) && Known(p, d, s', {})
    ensures s'.queue == [d.Early(p), d.Late(p), d.ToM(p)]
    ensures s'.best == d.Bests(p)[d.b.Key() := d.Late(p)][d.m.Key() := d.ToM(p)]
  {
    hide Node.Key;
    hide Entity.Key;
    hide DepthPenalty;
    hide Extend;
    hide WellFormed;
    hide TakeSteps;
    hide PathText;
    KeysDiffer();
    var f, v := d.ToA(p), Visit(s);
    EndOfSteps(p, f, v);
    var s1 := Follow(p, f, 0, v, 7);
    var s2 := Follow(p, f, 1, s1, 8);
    s' := Follow(p, f, 2, s2, 9);
    EndOfSteps(p, f, s');
    assert Iterate(p, s) == (s', false);
  }

  /** The early frame is dropped, and only the late one, a step deeper, is left. */
  lemma EarlyTurn(p: Problem, d: Detour, s: State) returns (s': State)
    requires d.In(p) && Roomy(s, 10) && Known(p, d, s, {}) && s.queue == [d.Early(p), d.Late(p), d.ToM(p)]
    requires s.best == d.Bests(p)[d.b.Key() := d.Late(p)][d.m.Key() := d.ToM(p)]
    ensures Run(p, s) == Run(p, s') && Roomy(s', 10) && Known(p, d, s', {})
    ensures s'.queue == [d.Late(p), d.ToM(p)] && s'.best == s.best
  {
    hide Node.Key;
    hide WellFormed;
    KeysDiffer();
    s' := s.(queue := s.queue[1..]);
    assert Stale(s, d.Early(p));
    assert Iterate(p, s) == (s', false);
  }

  /** A frame at the cap is visited and not expanded. */
  lemma VisitAtCap(p: Problem, s: State, used: nat) returns (s': State)
    requires Roomy(s, used) && used < p.policy.maxNodes && s.queue != [] && s.queue[0].depth >= p.policy.maxDepth
    requires s.queue[0].node.Key() in s.best && s.best[s.queue[0].node.Key()] == s.queue[0]
    ensures Run(p, s) == Run(p, s') && Roomy(s', used + 1)
    ensures s'.queue == s.queue[1..] && s'.best == s.best && s'.kept == s.kept
  {
    hide TakeSteps;
    s' := Visit(s);
    assert Iterate(p, s) == (s', false);
  }

  /** With a cap of two, the late frame is not expanded ... */
  lemma LateTurnsAtCapTwo(p: Problem, d: Detour, s: State)
    requires d.In(p) && Roomy(s, 10) && Known(p, d, s, {}) && p.policy.maxDepth == 2
    requires s.queue == [d.Late(p), d.ToM(p)]
    requires s.best == d.Bests(p)[d.b.Key() := d.Late(p)][d.m.Key() := d.ToM(p)]
    ensures Run(p, s).stats.cutoffs == [] && Known(p, d, Run(p, s), {})
  {
    hide Node.Key;
    hide WellFormed;
    hide Iterate;
    KeysDiffer();
    var t := VisitAtCap(p, s, 10);
    var u := VisitAtCap(p, t, 11);
  }

  /** The late frame leads back to the seed and to `f`, where nothing improves ... */
  lemma LateReturns(p: Problem, d: Detour, s: State) returns (s': State)
    requires d.In(p) && Roomy(s, 11) && Known(p, d, s, {})
    requires s.best == d.Bests(p)[d.b.Key() := d.Late(p)][d.m.Key() := d.ToM(p)]
    ensures TakeSteps(p, d.Late(p), p.steps(d.b), s) == TakeSteps(p, d.Late(p), p.steps(d.b)[2..], s')
    ensures s'.queue == s.queue && s'.best == s.best && Roomy(s', 13) && Known(p, d, s', {})
    ensures d.n.Key() !in s.best && d.c.Key() !in s.best
  {
    hide Node.Key;
    hide Entity.Key;
    hide DepthPenalty;
    hide Extend;
    hide WellFormed;
    hide TakeSteps;
    hide PathText;
    KeysDiffer();
    var f := d.Late(p);
    EndOfSteps(p, f, s);
    var s1 := Follow(p, f, 0, s, 11);
    s' := Follow(p, f, 1, s1, 12);
  }

  /** ... and, with a cap of three, on to `n` and `c` ... */
  lemma LateSteps(p: Problem, d: Detour, s: State) returns (s': State)
    requires d.In(p) && Roomy(s, 11) && Known(p, d, s, {})
    requires s.best == d.Bests(p)[d.b.Key() := d.Late(p)][d.m.Key() := d.ToM(p)]
    ensures TakeSteps(p, d.Late(p), p.steps(d.b), s) == (s', false)
    ensures s'.queue == s.queue + [d.ToN(p), d.ToC(p)]
    ensures s'.best == s.best[d.n.Key() := d.ToN(p)][d.c.Key() := d.ToC(p)]
    ensures Roomy(s', 15) && Known(p, d, s', {d.n.Key(), d.c.Key()})
  {
    hide Node.Key;
    hide Entity.Key;
    hide DepthPenalty;
    hide Extend;
    hide WellFormed;
    hide TakeSteps;
    hide PathText;
    KeysDiffer();
    hide FrameLess;
    hide Detour.Bests;
    var f := d.Late(p);
    var s2 := LateReturns(p, d, s);
    var s3 := Follow(p, f, 2, s2, 13);
    s' := Follow(p, f, 3, s3, 14);
    EndOfSteps(p, f, s');
  }

  /** ... whose frames are at the cap. */
  lemma LateTurn(p: Problem, d: Detour, s: State) returns (s': State)
    requires d.In(p) && Roomy(s, 10) && Known(p, d, s, {}) && p.policy.maxDepth == 3
    requires s.queue == [d.Late(p), d.ToM(p)]
    requires s.best == d.Bests(p)[d.b.Key() := d.Late(p)][d.m.Key() := d.ToM(p)]
    ensures Run(p, s) == Run(p, s') && Roomy(s', 15) && Known(p, d, s', {d.n.Key(), d.c.Key()})
    ensures s'.queue == [d.ToM(p), d.ToN(p), d.ToC(p)]
    ensures s'.best == s.best[d.n.Key() := d.ToN(p)][d.c.Key() := d.ToC(p)]
  {
    hide Node.Key;
    hide Entity.Key;
    hide DepthPenalty;
    hide Extend;
    hide WellFormed;
    hide TakeSteps;
    hide PathText;
    KeysDiffer();
    hide Detour.Bests;
    s' := LateSteps(p, d, Visit(s));
    assert Iterate(p, s) == (s', false);
  }

  lemma LastTurns(p: Problem, d: Detour, s: State)
    requires d.In(p) && Roomy(s, 15) && Known(p, d, s, {d.n.Key(), d.c.Key()}) && p.policy.maxDepth == 3
    requires s.queue == [d.ToM(p), d.ToN(p), d.ToC(p)]
    requires s.best == d.Bests(p)[d.b.Key() := d.Late(p)][d.m.Key() := d.ToM(p)]
                                 [d.n.Key() := d.ToN(p)][d.c.Key() := d.ToC(p)]
    ensures Run(p, s).stats.cutoffs == [] && Known(p, d, Run(p, s), {d.n.Key(), d.c.Key()})
  {
    hide Node.Key;
    hide Entity.Key;
    hide DepthPenalty;
    hide Extend;
    hide WellFormed;
    hide TakeSteps;
    hide PathText;
    KeysDiffer();
    var f, v := d.ToM(p), Visit(s);
    EndOfSteps(p, f, v);
    var t := Follow(p, f, 0, v, 16);
    EndOfSteps(p, f, t);
    assert Iterate(p, s) == (t, false);
    hide Iterate;
    var u := VisitAtCap(p, t, 17);
    var w := VisitAtCap(p, u, 18);
  }

  /** The run meets no budget, does not reach `c` with a cap of two, and nothing beyond `c` at all. */
  lemma DetourRun(p: Problem, d: Detour)
    requires d.In(p)
    ensures Drained(p)
    ensures Known(p, d, Final(p), if p.policy.maxDepth == 2 then {} else {d.n.Key(), d.c.Key()})
  {
    hide Run;
    hide Node.Key;
    hide Detour.Bests;
    hide Along;
    hide Known;
    hide Roomy;
    var s := SeedTurn(p, d);
    s := SymbolTurn(p, d, s);
    s := FileTurn(p, d, s);
    s := EarlyTurn(p, d, s);
    if p.policy.maxDepth == 2 {
      LateTurnsAtCapTwo(p, d, s);
    } else {
      s := LateTurn(p, d, s);
      LastTurns(p, d, s);
    }
  }
}
