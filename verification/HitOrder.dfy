/** What decides between hits, between offers for one entity, between frames of one node and between
  the steps of one node, with the order of tiers, reasons and kinds written out. */
module HitOrder {
  import opened Ordering
  import opened ImpactModel
  import opened PathDistance
  import opened Enrichment
  import opened Adjacency
  import opened TestPaths
  import opened StepOrder
  import opened Traversal
  import opened TraversalInvariants
  import opened TraversalTheorems
  import opened Ranking
  import opened Engine
  import opened Responses
  import opened Scenarios

  const TIERS: seq<Tier> := [Certain, Likely, Possible]

  const REASONS: seq<Reason> :=
    [Seed, References, Imports, Exports, DeclaredInFile, Contains, ImportedByFile, ReferencedByFile,
     TestReference, PackageMember, TestAffinity, Defines]

  const KINDS: seq<Kind> := [SymbolKind, FileKind, TestKind, PackageKind]

  /** `a` stands before `b` in the list. */
  predicate Sooner<T(==)>(list: seq<T>, a: T, b: T) {
    exists i, j :: 0 <= i < j < |list| && list[i] == a && list[j] == b
  }

  lemma TierOrder(a: Tier, b: Tier)
    ensures Sooner(TIERS, a, b) <==> TierRank(a) < TierRank(b)
  {
    assert TIERS[TierRank(a)] == a && TIERS[TierRank(b)] == b;
  }

  lemma ReasonOrder(a: Reason, b: Reason)
    ensures Sooner(REASONS, a, b) <==> ReasonRank(a) < ReasonRank(b)
  {
    assert REASONS[ReasonRank(a)] == a && REASONS[ReasonRank(b)] == b;
    assert forall i :: 0 <= i < |REASONS| ==> ReasonRank(REASONS[i]) == i;
  }

  lemma KindOrder(a: Kind, b: Kind)
    ensures Sooner(KINDS, a, b) <==> KindRank(a) < KindRank(b)
  {
    assert KINDS[KindRank(a)] == a && KINDS[KindRank(b)] == b;
  }

  /* ---- candidates ---- */

  /** How close a test is: found through a reference, through an import, or by its path only. */
  function TestCloseness(h: Candidate): nat
    requires |h.reasonPaths| == 1
  {
    if !h.entity.Test? then 0
    else if h.reason == TestAffinity then 3
    else if h.reasonPaths[0] != [] && Evidence(h.reasonPaths[0][|h.reasonPaths[0]| - 1], "referencessymbol") then 0
    else 1
  }

  predicate Evidence(e: Edge, text: string) { MetaGet(e.metadata, "evidence") == Some(text) }

  function Distance(inp: Inputs, e: Entity): nat { LexicalPathDistance(inp.target.path, e.AnchorPath()) }

  /** `a` is not behind `b`: by tier, then by depth, then by what decides within a depth. */
  predicate NotBehind(inp: Inputs, a: Candidate, b: Candidate)
    requires |a.reasonPaths| == 1 && |b.reasonPaths| == 1
  {
    || Sooner(TIERS, a.tier, b.tier)
    || (a.tier == b.tier && (a.depth < b.depth || (a.depth == b.depth && NotBehindAtDepth(inp, a, b))))
  }

  /** By reason, then by closeness as a test, then by distance from the target, score and kind. */
  predicate NotBehindAtDepth(inp: Inputs, a: Candidate, b: Candidate)
    requires |a.reasonPaths| == 1 && |b.reasonPaths| == 1
  {
    || Sooner(REASONS, a.reason, b.reason)
    || (a.reason == b.reason
        && (TestCloseness(a) < TestCloseness(b)
            || (TestCloseness(a) == TestCloseness(b) && NotFarther(inp, a, b))))
  }

  predicate NotFarther(inp: Inputs, a: Candidate, b: Candidate) {
    || Distance(inp, a.entity) < Distance(inp, b.entity)
    || (Distance(inp, a.entity) == Distance(inp, b.entity)
        && (a.score > b.score || (a.score == b.score && !Sooner(KINDS, b.entity.Kind(), a.entity.Kind()))))
  }

  /** All that the comparison looks at agrees. */
  predicate Level(inp: Inputs, a: Candidate, b: Candidate)
    requires |a.reasonPaths| == 1 && |b.reasonPaths| == 1
  {
    NotBehind(inp, a, b) && NotBehind(inp, b, a)
  }

  /** The compared fields of a candidate are what its evidence and its entity say. */
  predicate Standard(inp: Inputs, h: Candidate) {
    && |h.reasonPaths| == 1 && h.shortest == h.depth
    && h.testRelevance == TestCloseness(h)
    && h.pathRelevance == LexicalPathDistance(inp.target.path, h.entity.AnchorPath())
  }

  lemma ComparisonMeans(inp: Inputs, a: Candidate, b: Candidate)
    requires Standard(inp, a) && Standard(inp, b)
    ensures !CandidateLess(b, a) <==> NotBehind(inp, a, b)
    ensures SameCandidateKey(a, b) <==> Level(inp, a, b)
  {
    TierOrder(b.tier, a.tier);
    TierOrder(a.tier, b.tier);
    ReasonOrder(b.reason, a.reason);
    ReasonOrder(a.reason, b.reason);
    KindOrder(b.entity.Kind(), a.entity.Kind());
    KindOrder(a.entity.Kind(), b.entity.Kind());
    hide Sooner;
    hide LexicalPathDistance;
    hide TestCloseness;
  }

  lemma LessIsAsymmetric(a: Candidate, b: Candidate)
    requires HitLess(a, b)
    ensures !CandidateLess(b, a)
  {
  }

  /* ---- candidates of a run are standard ---- */

  lemma TestEvidenceListed(inp: Inputs, heuristics: bool, scope: Option<string>, m: map<string, seq<Association>>,
                           key: string, s: Step)
    requires Tested(inp, heuristics, scope, m, key, s)
    ensures s.entity.Test? && TestEvidence(s)
  {
    var a :| Has(m, key, a) && Vouches(inp, heuristics, scope, a, s);
    EvidenceOfAssociation(a, "referencessymbol", scope);
    EvidenceOfAssociation(a, "importsfile", scope);
    hide AssociationMetadata;
    hide FileName;
    hide MetaGet;
  }

  lemma EvidenceOfAssociation(a: Association, kind: string, scope: Option<string>)
    ensures MetaGet(AssociationMetadata(a, kind, scope), "evidence") == Some(kind)
  {
    var m := AssociationMetadata(a, kind, scope);
    assert "detail"[0] == 'd' && "evidence"[0] == 'e';
    assert m[0] == ("detail", a.detail) && m[1..][0] == ("evidence", kind);
  }

  /** A step to a test is by affinity, or by reference on one of three kinds of evidence. */
  predicate TestEvidence(s: Step) {
    || s.reason == TestAffinity
    || (s.reason == TestReference
        && MetaGet(s.metadata, "evidence") in {Some("referencessymbol"), Some("importsfile"), None})
  }

  lemma TestStepsHaveEvidence(inp: Inputs, n: Node, s: Step)
    requires LeadsAway(inp, n, s) && s.entity.Test?
    ensures TestEvidence(s)
  {
    var heuristics := inp.scenario != Rename;
    forall scope: Option<string>, m, key | Tested(inp, heuristics, scope, m, key, s) ensures TestEvidence(s) {
      TestEvidenceListed(inp, heuristics, scope, m, key, s);
    }
    forall d | DependsOnFile(inp, d, s) ensures TestEvidence(s) {
      DependentEvidence(inp, d, s);
    }
    hide Tested;
    hide DependsOnFile;
    hide TestEvidence;
    hide Has;
  }

  lemma DependentEvidence(inp: Inputs, d: string, s: Step)
    requires DependsOnFile(inp, d, s) && s.entity.Test?
    ensures TestEvidence(s)
  {
    hide IsTestFile;
    hide FileName;
    var m := [("path", d)];
    assert "path"[0] == 'p' && "evidence"[0] == 'e';
    assert m[1..] == [] && m[0].0 == "path";
    assert MetaGet(m, "evidence") == None;
  }

  /* ---- offers and hits of the engine's own search ---- */

  lemma OfferIsStandard(inp: Inputs, params: Params, f: Frame, step: Step)
    requires var p := Search(inp, params);
             FrameSound(p, f) && step in p.steps(f.node)
    ensures Standard(inp, OfferOf(Search(inp, params), f, step))
    ensures |Extend(f, step)| == f.depth + 1
  {
    SearchIsWellFormed(inp, params);
    var p := Search(inp, params);
    OfferLength(p, f, step);
    FramePathLength(p, f);
    StepRules(inp, params, f.node, step);
    GraphMeansRelation(inp, params, f.node, step);
    if step.entity.Test? {
      TestStepsHaveEvidence(inp, f.node, step);
    }
    assert p.relevance(step.entity) == Distance(inp, step.entity);
    hide Search;
    hide RawGraph;
    hide LeadsAway;
    hide LexicalPathDistance;
    hide FrameSound;
    RelevanceIsCloseness(OfferOf(p, f, step), step);
  }

  lemma FramePathLength(p: Problem, f: Frame)
    requires FrameSound(p, f)
    ensures |f.path| == f.depth
  {
    var c :| Explains(p, c, f);
  }

  lemma RelevanceIsCloseness(h: Candidate, step: Step)
    requires |h.reasonPaths| == 1 && h.reasonPaths[0] != [] && h.entity == step.entity && h.reason == step.reason
    requires h.reasonPaths[0][|h.reasonPaths[0]| - 1].metadata == step.metadata
    requires step.entity.Test? ==> TestEvidence(step)
    ensures TestRelevance(h.entity, h.reason, h.reasonPaths) == TestCloseness(h)
  {
    hide MetaGet;
  }

  lemma SeedIsStandard(inp: Inputs, params: Params)
    ensures Standard(inp, SeedHit(Search(inp, params)))
  {
    var p := Search(inp, params);
    assert p.relevance(p.seedEntity) == Distance(inp, p.seedEntity);
    var path := [Edge(Seed, p.seedEntity, p.seedEntity, [])];
    assert PathLength(path) == 0 && [path][1..] == [];
    hide LexicalPathDistance;
    hide AddCandidate;
  }

  lemma KeptIsStandard(inp: Inputs, params: Params, key: string)
    requires key in Final(Search(inp, params)).kept
    ensures Standard(inp, Final(Search(inp, params)).kept[key])
    ensures Final(Search(inp, params)).kept[key].entity.Key() == key
  {
    hide Search;
    hide Standard;
    hide Run;
    var p := Search(inp, params);
    SearchIsWellFormed(inp, params);
    FinalIsKeyed(p);
    if key == p.seed.Key() {
      SeedIsKept(p);
      SeedIsStandard(inp, params);
    } else {
      var f, step := HitsAreOffers(p, key);
      VisitsAreSound(p, f);
      OfferIsStandard(inp, params, f, step);
    }
  }

  /** What stands behind the i-th hit of a response. */
  function CandidateOf(inp: Inputs, params: Params, response: Response, i: nat): Candidate
    requires i < |Hits(response)| && Hits(response)[i].entity.Key() in Final(Search(inp, params)).kept
  {
    Final(Search(inp, params)).kept[Hits(response)[i].entity.Key()]
  }

  /** The hits of a response are listed in order: no later one comes before an earlier one by tier, depth,
    reason, closeness as a test, distance from the target, score or kind, and where all of these agree
    the entity keys ascend. */
  lemma HitsAreInOrder(inp: Inputs, params: Params, response: Response, i: nat, j: nat)
    requires Answers(inp, params.limit, Final(Search(inp, params)), response) && i < j < |Hits(response)|
    ensures var kept := Final(Search(inp, params)).kept;
            Hits(response)[i].entity.Key() in kept && Hits(response)[j].entity.Key() in kept
    ensures var a, b := CandidateOf(inp, params, response, i), CandidateOf(inp, params, response, j);
            && Hits(response)[i] == ToRanked(a, i + 1, inp.includeReasonPaths)
            && Hits(response)[j] == ToRanked(b, j + 1, inp.includeReasonPaths)
            && |a.reasonPaths| == 1 && |b.reasonPaths| == 1 && NotBehind(inp, a, b)
            && (Level(inp, a, b) ==> StrLess(a.entity.Key(), b.entity.Key()))
  {
    hide Search;
    hide Run;
    hide Hits;
    hide Answers;
    hide NotBehind;
    hide WellFormed;
    hide Entity.Key;
    var p := Search(inp, params);
    SearchIsWellFormed(inp, params);
    ListedIsKept(p, inp, params.limit, response, i);
    ListedIsKept(p, inp, params.limit, response, j);
    var a, b := CandidateOf(inp, params, response, i), CandidateOf(inp, params, response, j);
    KeptIsStandard(inp, params, Hits(response)[i].entity.Key());
    KeptIsStandard(inp, params, Hits(response)[j].entity.Key());
    ListedAreLess(p, inp, params.limit, response, i, j);
    LessIsAsymmetric(a, b);
    ComparisonMeans(inp, a, b);
  }

  lemma ListedAreLess(p: Problem, inp: Inputs, limit: nat, response: Response, i: nat, j: nat)
    requires WellFormed(p) && Answers(inp, limit, Final(p), response) && i < j < |Hits(response)|
    ensures var kept := Final(p).kept; var a, b := Hits(response)[i].entity.Key(), Hits(response)[j].entity.Key();
            a in kept && b in kept && HitLess(kept[a], kept[b])
            && (SameCandidateKey(kept[a], kept[b]) ==> StrLess(a, b))
  {
    hide Run;
    hide Hits;
    hide Answers;
    FinalIsKeyed(p);
    var ranking := RankingBehind(inp, limit, Final(p), response);
    assert HitLess(ranking[i], ranking[j]);
    ListedIsKept(p, inp, limit, response, i);
    ListedIsKept(p, inp, limit, response, j);
    assert ranking[i] in Final(p).kept.Values && ranking[j] in Final(p).kept.Values;
  }

  /* ---- offers for one entity ---- */

  /** Of all the offers made for an entity in a run without cutoff, by frames visited below the cap, none
    comes before the kept hit; and where they are level, none has the smaller evidence text. */
  lemma KeptComesFirst(inp: Inputs, params: Params, f: Frame, step: Step, key: string)
    requires var p := Search(inp, params);
             Drained(p) && key != p.seed.Key() && LeadsTo(p, AllVisits(p), f, step, key)
    ensures var p := Search(inp, params);
            && key in Final(p).kept && |Final(p).kept[key].reasonPaths| == 1
            && var h, o := Final(p).kept[key], OfferOf(p, f, step);
               && NotBehind(inp, h, o)
               && (Level(inp, h, o) ==> !StrLess(PathText(o.reasonPaths[0]), PathText(h.reasonPaths[0])))
  {
    hide Search;
    hide Run;
    hide Standard;
    hide NotBehind;
    hide LeadsTo;
    hide WellFormed;
    var p := Search(inp, params);
    SearchIsWellFormed(inp, params);
    HitsAreBestOffers(p, key);
    KeptIsStandard(inp, params, key);
    assert f in AllVisits(p) && step in p.steps(f.node) by { UnfoldLeadsTo(p, f, step, key); }
    VisitsAreSound(p, f);
    OfferIsStandard(inp, params, f, step);
    var h, o := Final(p).kept[key], OfferOf(p, f, step);
    StandardIsSingle(inp, h);
    ComparisonMeans(inp, h, o);
    EvidenceDecides(h, o);
    var g, other := HitsAreOffers(p, key);
    UnfoldLeadsTo(p, g, other, key);
    VisitsAreSound(p, g);
    OfferIsStandard(inp, params, g, other);
  }

  lemma UnfoldLeadsTo(p: Problem, f: Frame, step: Step, key: string)
    requires LeadsTo(p, AllVisits(p), f, step, key)
    ensures f in AllVisits(p) && step in p.steps(f.node) && f.depth < p.policy.maxDepth && step.entity.Key() == key
  {
  }

  lemma StandardIsSingle(inp: Inputs, h: Candidate)
    requires Standard(inp, h)
    ensures |h.reasonPaths| == 1
  {
  }

  /** Between level offers the text decides, if their paths are equally long. */
  lemma EvidenceDecides(h: Candidate, o: Candidate)
    requires !OfferLess(o, h) && |h.reasonPaths| == 1 && |o.reasonPaths| == 1
    ensures !CandidateLess(o, h)
    ensures SameCandidateKey(h, o) && |h.reasonPaths[0]| == |o.reasonPaths[0]| ==>
              !StrLess(PathText(o.reasonPaths[0]), PathText(h.reasonPaths[0]))
  {
  }

  /* ---- frames of one node ---- */

  /** Of all the frames that visits below the cap step to, in a run without cutoff, the best one of a node
    is not behind by tier, depth, score or evidence text. */
  lemma BestComesFirst(p: Problem, f: Frame, step: Step)
    requires WellFormed(p) && Drained(p) && f in AllVisits(p) && f.depth < p.policy.maxDepth
    requires step in p.steps(f.node) && step.next.Some?
    ensures step.next.value.Key() in Final(p).best
    ensures var x, b := NextFrame(f, step), Final(p).best[step.next.value.Key()];
            && b.node == x.node && !Sooner(TIERS, x.tier, b.tier)
            && (b.tier == x.tier ==> b.depth <= x.depth)
            && (b.tier == x.tier && b.depth == x.depth ==> b.score >= x.score)
            && (b.tier == x.tier && b.depth == x.depth && b.score == x.score ==>
                  !StrLess(PathText(x.path), PathText(b.path)))
  {
    hide Run;
    hide PathText;
    DrainedRunIsClosed(p);
    assert Settled(p, Final(p), f, step);
    BestIsKeyed(p, step.next.value);
    TierOrder(NextFrame(f, step).tier, Final(p).best[step.next.value.Key()].tier);
    hide Sooner;
  }

  /* ---- steps of one node ---- */

  /** The step `a` is not behind `b`: by tier, reason, kind, next node, metadata and entity, in this order;
    the last three by text, no next node being the empty text. */
  predicate StepNotBehind(a: Step, b: Step) {
    || Sooner(TIERS, a.tier, b.tier)
    || (a.tier == b.tier
        && (Sooner(REASONS, a.reason, b.reason)
            || (a.reason == b.reason
                && (Sooner(KINDS, a.entity.Kind(), b.entity.Kind())
                    || (a.entity.Kind() == b.entity.Kind() && TextNotBehind(a, b))))))
  }

  predicate TextNotBehind(a: Step, b: Step) {
    var x, y := if a.next.Some? then a.next.value.Key() else "", if b.next.Some? then b.next.value.Key() else "";
    || StrLess(x, y)
    || (x == y
        && (StrLess(MetaKey(a.metadata), MetaKey(b.metadata))
            || (MetaKey(a.metadata) == MetaKey(b.metadata) && !StrLess(b.entity.Key(), a.entity.Key()))))
  }

  lemma StepComparisonMeans(a: Step, b: Step)
    ensures !StepLess(b, a) <==> StepNotBehind(a, b)
  {
    TierOrder(a.tier, b.tier);
    ReasonOrder(a.reason, b.reason);
    KindOrder(a.entity.Kind(), b.entity.Kind());
    StrLessIsStrictTotalOrder();
    KindRankInjective(a.entity.Kind(), b.entity.Kind());
    hide Sooner;
    hide StrLess;
    hide MetaKey;
    hide Entity.Key;
    hide Node.Key;
  }

  lemma KindRankInjective(a: Kind, b: Kind)
    ensures KindRank(a) == KindRank(b) ==> a == b
  {
  }

  /** The steps of a node are taken in order, and no two neighbours agree in entity, reason, next node and
    metadata. */
  lemma StepsAreInOrder(raw: seq<Step>, i: nat, j: nat)
    requires i < j < |OrderedSteps(raw)|
    ensures StepNotBehind(OrderedSteps(raw)[i], OrderedSteps(raw)[j])
    ensures var a, b := OrderedSteps(raw)[i], OrderedSteps(raw)[i + 1];
            !(a.entity.Key() == b.entity.Key() && a.reason == b.reason && a.next == b.next
              && MetaKey(a.metadata) == MetaKey(b.metadata))
  {
    hide StepNotBehind;
    hide StepLess;
    StepLessIsWeakOrder();
    SortBySorted(StepLess, raw);
    DedupKeepsSorted(StepLess, SameStep, SortBy(StepLess, raw));
    StepComparisonMeans(OrderedSteps(raw)[i], OrderedSteps(raw)[j]);
  }
}
