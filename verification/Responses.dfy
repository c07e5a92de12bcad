/** What the response tells a caller: the run theorems, read off the hits that it lists. */
module Responses {
  import opened ImpactModel
  import opened Enrichment
  import opened Traversal
  import opened TraversalInvariants
  import opened TraversalTheorems
  import opened Ranking
  import opened Engine
  import opened Levels
  import opened Completeness

  function Hits(response: Response): seq<RankedHit> { Flatten(response.groups) }

  /** The response lists the entity with this key, in a tier no worse than `worst`. */
  ghost predicate Lists(response: Response, key: string, worst: Tier) {
    exists h :: h in Hits(response) && h.entity.Key() == key && TierRank(h.tier) <= TierRank(worst)
  }

  /** No budget stopped the run, and the limit cut no hit off. */
  ghost predicate Whole(p: Problem, limit: nat, response: Response) {
    response.stats.cutoffs == [] && |Final(p).kept| <= limit
  }

  /* ---- hits and kept candidates ---- */

  function KeysOf(cs: seq<Candidate>): set<string> { set c | c in cs :: c.entity.Key() }

  lemma {:induction false} DistinctKeysCount(cs: seq<Candidate>)
    requires forall i, j :: 0 <= i < j < |cs| ==> cs[i].entity.Key() != cs[j].entity.Key()
    ensures |KeysOf(cs)| == |cs|
  {
    hide Entity.Key;
    if cs != [] {
      var front, last := cs[..|cs| - 1], cs[|cs| - 1];
      DistinctKeysCount(front);
      assert KeysOf(cs) == KeysOf(front) + {last.entity.Key()};
    }
  }

  /** A ranking has one entry for each kept candidate. */
  lemma RankingCounts(kept: map<string, Candidate>, ranking: seq<Candidate>)
    requires KeyedByEntity(kept) && IsRanking(kept, ranking)
    ensures |ranking| == |kept|
  {
    HitLessIsStrictOrder();
    hide HitLess;
    hide Entity.Key;
    forall i, j | 0 <= i < j < |ranking| ensures ranking[i].entity.Key() != ranking[j].entity.Key() {
      assert ranking[i] in kept.Values && ranking[j] in kept.Values;
    }
    DistinctKeysCount(ranking);
    forall k | k in kept ensures k in KeysOf(ranking) {
      assert kept[k] in ranking;
    }
    assert KeysOf(ranking) == kept.Keys;
  }

  /** As many hits as the limit allows, and no kept candidate is left out below that. */
  lemma ListedCount(p: Problem, inp: Inputs, limit: nat, response: Response)
    requires WellFormed(p) && Answers(inp, limit, Final(p), response)
    ensures |Hits(response)| == if limit <= |Final(p).kept| then limit else |Final(p).kept|
  {
    hide Run;
    hide Hits;
    FinalIsKeyed(p);
    var ranking := RankingBehind(inp, limit, Final(p), response);
    RankingCounts(Final(p).kept, ranking);
  }

  lemma FinalIsKeyed(p: Problem)
    requires WellFormed(p)
    ensures KeyedByEntity(Final(p).kept)
  {
    FinalInv(p);
  }

  /** The ranking whose head, up to the limit, is listed. */
  lemma RankingBehind(inp: Inputs, limit: nat, final: State, response: Response) returns (ranking: seq<Candidate>)
    requires Answers(inp, limit, final, response)
    ensures IsRanking(final.kept, ranking)
    ensures |Hits(response)| == if limit <= |ranking| then limit else |ranking|
    ensures forall i :: 0 <= i < |Hits(response)| ==>
              Hits(response)[i] == ToRanked(ranking[i], i + 1, inp.includeReasonPaths)
  {
    hide IsRanking;
    hide ToRanked;
    ranking :| IsRanking(final.kept, ranking) && AnswersWith(inp, limit, final, response, ranking);
  }

  /** Each listed hit is a kept candidate, with its rank and, if asked for, its evidence. */
  lemma ListedIsKept(p: Problem, inp: Inputs, limit: nat, response: Response, i: nat)
    requires WellFormed(p) && Answers(inp, limit, Final(p), response) && i < |Hits(response)|
    ensures var h := Hits(response)[i]; var key := h.entity.Key();
            key in Final(p).kept && h == ToRanked(Final(p).kept[key], i + 1, inp.includeReasonPaths)
  {
    hide Run;
    FinalIsKeyed(p);
    hide Hits;
    var ranking := RankingBehind(inp, limit, Final(p), response);
    assert ranking[i] in Final(p).kept.Values;
  }

  /** Where the limit does not bind, each kept candidate is listed. */
  lemma KeptIsListed(p: Problem, inp: Inputs, limit: nat, response: Response, key: string) returns (i: nat)
    requires WellFormed(p) && Answers(inp, limit, Final(p), response) && |Final(p).kept| <= limit
    requires key in Final(p).kept
    ensures i < |Hits(response)| && Hits(response)[i] == ToRanked(Final(p).kept[key], i + 1, inp.includeReasonPaths)
    ensures Hits(response)[i].entity.Key() == key
  {
    hide Run;
    FinalIsKeyed(p);
    hide Hits;
    hide WellFormed;
    var ranking := RankingBehind(inp, limit, Final(p), response);
    RankingCounts(Final(p).kept, ranking);
    assert Final(p).kept[key] in ranking;
    i :| 0 <= i < |ranking| && ranking[i] == Final(p).kept[key];
  }

  lemma ListedExactly(p: Problem, inp: Inputs, limit: nat, response: Response, key: string, worst: Tier)
    requires WellFormed(p) && Answers(inp, limit, Final(p), response) && Whole(p, limit, response)
    ensures Lists(response, key, worst)
            <==> key in Final(p).kept && TierRank(Final(p).kept[key].tier) <= TierRank(worst)
    ensures Drained(p)
  {
    hide Run;
    if Lists(response, key, worst) {
      var h :| h in Hits(response) && h.entity.Key() == key && TierRank(h.tier) <= TierRank(worst);
      var i :| 0 <= i < |Hits(response)| && Hits(response)[i] == h;
      ListedIsKept(p, inp, limit, response, i);
    }
    if key in Final(p).kept {
      var i := KeptIsListed(p, inp, limit, response, key);
    }
  }

  /* ---- what the response means ---- */

  /** The score of the last step less 40 for each step before it, but never below zero. */
  predicate IsPenalized(score: nat, last: nat, before: nat) {
    score + 40 * before == last || (score == 0 && last <= 40 * before)
  }

  /** Each listed hit but the seed rests on a raw chain, with the tier, the depth and the reason that
    the hit states, and with the evidence that it shows; cut off and truncated or not. */
  lemma ListedHitsHaveEvidence(p: Problem, r: Problem, scenario: Scenario, inp: Inputs, limit: nat,
                                 response: Response, i: nat)
    returns (c: seq<Step>)
    requires Serves(p, r, scenario) && Answers(inp, limit, Final(p), response)
    requires i < |Hits(response)| && Hits(response)[i].entity.Key() != p.seed.Key()
    ensures var h := Hits(response)[i];
            && EndsOn(r, c, h.entity.Key()) && WorstTier(c) == h.tier && |c| == h.depth <= p.policy.maxDepth
            && Last(c).reason == h.reason && Last(c).entity == h.entity && (h.direct <==> |c| == 1)
            && h.reasonPaths == (if inp.includeReasonPaths then [EvidenceOf(p, c)] else [])
            && IsPenalized(h.score, Last(c).score, |c| - 1)
  {
    hide Run;
    ListedIsKept(p, inp, limit, response, i);
    c := HitHasEvidence(p, r, scenario, Hits(response)[i].entity.Key());
  }

  /** A whole response lists an entity as Certain exactly when an all-Certain raw chain within the cap
    leads there; and outside ModifyBehavior it lists exactly what any chain within the cap leads to. */
  lemma ResponseIsExact(p: Problem, r: Problem, scenario: Scenario, inp: Inputs, limit: nat, response: Response,
                        key: string)
    requires Serves(p, r, scenario) && Answers(inp, limit, Final(p), response) && Whole(p, limit, response)
    requires key != p.seed.Key()
    ensures Lists(response, key, Certain) <==> HasChain(r, key, p.policy.maxDepth, Certain)
    ensures scenario != ModifyBehavior ==>
              (Lists(response, key, Possible) <==> HasChain(r, key, p.policy.maxDepth, Possible))
  {
    hide Run;
    ListedExactly(p, inp, limit, response, key, Certain);
    ListedExactly(p, inp, limit, response, key, Possible);
    CertainHits(p, r, scenario, key);
    if scenario != ModifyBehavior {
      ReachIsExact(p, r, scenario, key);
    }
  }

  /** What a single step leads to is listed, in every scenario. */
  lemma OneStepIsListed(p: Problem, r: Problem, scenario: Scenario, inp: Inputs, limit: nat, response: Response,
                        s: Step)
    requires Serves(p, r, scenario) && Answers(inp, limit, Final(p), response) && Whole(p, limit, response)
    requires s in r.steps(r.seed) && s.entity.Key() != p.seed.Key() && p.policy.maxDepth > 0
    ensures Lists(response, s.entity.Key(), s.tier)
  {
    hide Run;
    hide Entity.Key;
    var t := Representative(p, r, scenario, r.seed, s);
    var c := [t];
    assert c[..0] == [] && Leaves(p, c, 0);
    assert EndsOn(p, c, t.entity.Key()) && WorstTier(c) == t.tier;
    ListedExactly(p, inp, limit, response, s.entity.Key(), s.tier);
    LastStepIsKept(p, c, t.entity.Key());
  }

  /** In every scenario, if the cap bound nowhere, the whole response lists an entity in a tier no worse
    than `worst` exactly when some raw chain of any length to it is no worse. */
  lemma ResponseIsMinimax(p: Problem, r: Problem, scenario: Scenario, inp: Inputs, limit: nat, response: Response,
                          key: string, worst: Tier)
    requires Serves(p, r, scenario) && Answers(inp, limit, Final(p), response) && Whole(p, limit, response)
    requires NoBestAtCap(p) && key != p.seed.Key()
    ensures Lists(response, key, worst) <==> exists c :: EndsOn(r, c, key) && TierRank(WorstTier(c)) <= TierRank(worst)
  {
    hide Run;
    ListedExactly(p, inp, limit, response, key, worst);
    MinimaxTiers(p, r, scenario, key);
  }

  /** The same, of the engine's own search: what `AnalyzeInputs` returns is exact, under ModifyBehavior
    too if the input has no near miss. */
  lemma AnalysisIsExact(inp: Inputs, params: Params, response: Response, key: string)
    requires Answers(inp, params.limit, Final(Search(inp, params)), response)
    requires Whole(Search(inp, params), params.limit, response) && key != Search(inp, params).seed.Key()
    ensures var cap, r := Search(inp, params).policy.maxDepth, RawGraph(inp, params);
            && (Lists(response, key, Certain) <==> HasChain(r, key, cap, Certain))
            && (Lists(response, key, Possible) ==> HasChain(r, key, cap, Possible))
            && (inp.scenario != ModifyBehavior || NoNearMiss(r) ==>
                  (Lists(response, key, Possible) <==> HasChain(r, key, cap, Possible)))
  {
    hide Search;
    hide RawGraph;
    hide Run;
    hide NoNearMiss;
    var p, r := Search(inp, params), RawGraph(inp, params);
    SearchServes(inp, params);
    ResponseIsExact(p, r, inp.scenario, inp, params.limit, response, key);
    ListedExactly(p, inp, params.limit, response, key, Possible);
    if Lists(response, key, Possible) {
      var c := HitHasEvidence(p, r, inp.scenario, key);
    }
    if NoNearMiss(r) {
      FindsAllWithoutNearMiss(inp, params);
    }
  }

  /** The seed comes first: no other entity is at distance zero. */
  lemma SeedComesFirst(p: Problem, inp: Inputs, limit: nat, response: Response)
    requires WellFormed(p) && Answers(inp, limit, Final(p), response) && limit > 0
    ensures Hits(response) != []
    ensures var h := Hits(response)[0];
            && h.entity == p.seedEntity && h.reason == Seed && h.tier == Certain && h.depth == 0 && h.direct
            && h.score == 1000 && h.rank == 1
  {
    hide Run;
    hide WellFormed;
    hide Hits;
    hide HitLess;
    SeedIsBest(p);
    var ranking := RankingBehind(inp, limit, Final(p), response);
    FirstOfRanking(Final(p).kept, ranking, p.seed.Key());
  }

  lemma SeedIsKept(p: Problem)
    requires WellFormed(p)
    ensures p.seed.Key() in Final(p).kept && Final(p).kept[p.seed.Key()] == SeedHit(p)
  {
    FinalInv(p);
  }

  lemma SeedIsBest(p: Problem)
    requires WellFormed(p)
    ensures p.seed.Key() in Final(p).kept && Final(p).kept[p.seed.Key()] == SeedHit(p)
    ensures forall key :: key in Final(p).kept && key != p.seed.Key() ==> !HitLess(Final(p).kept[key], SeedHit(p))
  {
    hide Run;
    SeedIsKept(p);
    hide WellFormed;
    forall key | key in Final(p).kept && key != p.seed.Key() ensures !HitLess(Final(p).kept[key], SeedHit(p)) {
      var c := HitsAreSound(p, key);
      SeedIsNearest(p, c, Final(p).kept[key]);
    }
  }

  lemma FirstOfRanking(kept: map<string, Candidate>, ranking: seq<Candidate>, best: string)
    requires IsRanking(kept, ranking) && best in kept
    requires forall key :: key in kept && key != best ==> !HitLess(kept[key], kept[best])
    ensures ranking != [] && ranking[0] == kept[best]
  {
    hide HitLess;
    assert kept[best] in ranking;
    assert ranking[0] in ranking;
  }

  lemma SeedIsNearest(p: Problem, c: seq<Step>, h: Candidate)
    requires Supports(p, c, h)
    ensures !HitLess(h, SeedHit(p))
  {
    assert SeedHit(p).shortest == 0 && SeedHit(p).tier == Certain;
  }
}
