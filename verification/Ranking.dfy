/** Ranking the kept candidates, grouping the ranked hits, and the summary counts. */
module Ranking {
  import opened Ordering
  import opened ImpactModel

  datatype RankedHit = RankedHit(
    rank: nat,
    score: nat,
    entity: Entity,
    tier: Tier,
    reason: Reason,
    depth: nat,
    direct: bool,
    reasonPaths: seq<ReasonPath>)

  datatype Group = Group(direct: bool, tier: Tier, kind: Kind, hitCount: nat, hits: seq<RankedHit>)

  datatype Summary = Summary(direct: nat, transitive: nat, certain: nat, likely: nat, possible: nat)

  /* ---- ranking ---- */

  /** `compare_candidate_hits`: the comparison key, then the entity key. */
  predicate HitLess(a: Candidate, b: Candidate) {
    CandidateLess(a, b) || (SameCandidateKey(a, b) && StrLess(a.entity.Key(), b.entity.Key()))
  }

  lemma HitLessIsStrictOrder()
    ensures StrictOrder(HitLess)
  {
    forall a: Candidate ensures !HitLess(a, a) { StrIrreflexive(a.entity.Key()); }
    forall a: Candidate, b: Candidate, c: Candidate | HitLess(a, b) && HitLess(b, c) ensures HitLess(a, c) {
      HitLessTransitive(a, b, c);
    }
  }

  lemma HitLessTransitive(a: Candidate, b: Candidate, c: Candidate)
    requires HitLess(a, b) && HitLess(b, c)
    ensures HitLess(a, c)
  {
    if SameCandidateKey(a, b) && SameCandidateKey(b, c) {
      StrTransitive(a.entity.Key(), b.entity.Key(), c.entity.Key());
    }
  }

  /** Hits on different entities never tie. */
  lemma HitLessConnected(a: Candidate, b: Candidate)
    requires a.entity.Key() != b.entity.Key()
    ensures HitLess(a, b) || HitLess(b, a)
  {
    StrConnected(a.entity.Key(), b.entity.Key());
  }

  ghost predicate KeyedByEntity(kept: map<string, Candidate>) {
    forall k :: k in kept ==> kept[k].entity.Key() == k
  }

  /** The kept candidates, best first. */
  ghost predicate IsRanking(kept: map<string, Candidate>, hits: seq<Candidate>) {
    StrictlySorted(HitLess, hits) && forall c :: c in hits <==> c in kept.Values
  }

  lemma RankingIsUnique(kept: map<string, Candidate>, a: seq<Candidate>, b: seq<Candidate>)
    requires IsRanking(kept, a) && IsRanking(kept, b)
    ensures a == b
  {
    HitLessIsStrictOrder();
    StrictlySortedUnique(HitLess, a, b);
  }

  method RankCandidates(kept: map<string, Candidate>) returns (hits: seq<Candidate>)
    requires KeyedByEntity(kept)
    ensures IsRanking(kept, hits)
  {
    var values: seq<Candidate> := [];
    var keys := kept.Keys;
    while keys != {}
      invariant keys <= kept.Keys
      invariant forall c :: c in values <==> exists k :: k in kept.Keys - keys && kept[k] == c
      invariant forall i :: 0 <= i < |values| ==> values[i].entity.Key() in kept.Keys - keys
      invariant forall i, j :: 0 <= i < j < |values| ==> values[i].entity.Key() != values[j].entity.Key()
      decreases keys
    {
      var k :| k in keys;
      values := values + [kept[k]];
      keys := keys - {k};
    }
    forall i, j | 0 <= i < j < |values| ensures HitLess(values[i], values[j]) || HitLess(values[j], values[i]) {
      HitLessConnected(values[i], values[j]);
    }
    HitLessIsStrictOrder();
    SortByStrict(HitLess, values);
    hits := SortBy(HitLess, values);
    forall c ensures c in hits <==> c in kept.Values {
      SortByMembers(HitLess, values, c);
    }
  }

  function Truncated(hits: seq<Candidate>, limit: nat): seq<Candidate> {
    if limit == 0 then [] else if |hits| <= limit then hits else hits[..limit]
  }

  function ToRanked(hit: Candidate, rank: nat, includePaths: bool): RankedHit {
    RankedHit(rank, hit.score, hit.entity, hit.tier, hit.reason, hit.depth, hit.direct,
              if includePaths then hit.reasonPaths else [])
  }

  function RankedHits(hits: seq<Candidate>, includePaths: bool): seq<RankedHit> {
    seq(|hits|, i requires 0 <= i < |hits| => ToRanked(hits[i], i + 1, includePaths))
  }

  /** A smaller limit gives a prefix of the hits of a larger one, with the same ranks. */
  lemma SmallerLimitIsPrefix(kept: map<string, Candidate>, a: seq<Candidate>, b: seq<Candidate>, small: nat,
                             large: nat, paths: bool)
    requires IsRanking(kept, a) && IsRanking(kept, b) && small <= large
    ensures RankedHits(Truncated(a, small), paths) <= RankedHits(Truncated(b, large), paths)
  {
    RankingIsUnique(kept, a, b);
    assert Truncated(a, small) <= Truncated(b, large);
  }

  /* ---- grouping ---- */

  predicate SameGroup(a: RankedHit, b: RankedHit) {
    a.direct == b.direct && a.tier == b.tier && a.entity.Kind() == b.entity.Kind()
  }

  predicate Fits(g: Group, h: RankedHit) {
    g.direct == h.direct && g.tier == h.tier && g.kind == h.entity.Kind()
  }

  function Flatten(groups: seq<Group>): seq<RankedHit> {
    if groups == [] then [] else Flatten(groups[..|groups| - 1]) + groups[|groups| - 1].hits
  }

  ghost predicate WellFormedGroup(g: Group) {
    g.hits != [] && g.hitCount == |g.hits| && forall i :: 0 <= i < |g.hits| ==> Fits(g, g.hits[i])
  }

  /** The groups are the maximal runs of hits that agree on directness, tier and kind. */
  ghost predicate IsGrouping(groups: seq<Group>, hits: seq<RankedHit>) {
    && Flatten(groups) == hits
    && (forall i :: 0 <= i < |groups| ==> WellFormedGroup(groups[i]))
    && (forall i :: 0 < i < |groups| ==> !Fits(groups[i - 1], groups[i].hits[0]))
  }

  function GrowLast(groups: seq<Group>, hit: RankedHit): seq<Group>
    requires groups != []
  {
    var last := groups[|groups| - 1];
    groups[..|groups| - 1] + [last.(hitCount := last.hitCount + 1, hits := last.hits + [hit])]
  }

  lemma GrowLastKeeps(groups: seq<Group>, hits: seq<RankedHit>, hit: RankedHit)
    requires IsGrouping(groups, hits) && groups != [] && Fits(groups[|groups| - 1], hit)
    ensures IsGrouping(GrowLast(groups, hit), hits + [hit])
  {
    var grown, n := GrowLast(groups, hit), |groups| - 1;
    assert grown[..n] == groups[..n];
    assert WellFormedGroup(groups[n]);
    forall i | 0 <= i < |grown[n].hits| ensures Fits(grown[n], grown[n].hits[i]) {
      assert i < |groups[n].hits| ==> Fits(groups[n], groups[n].hits[i]);
    }
    forall i | 0 < i < |grown| ensures !Fits(grown[i - 1], grown[i].hits[0]) {
      assert !Fits(groups[i - 1], groups[i].hits[0]);
      assert WellFormedGroup(groups[i]);
    }
  }

  lemma NewGroupKeeps(groups: seq<Group>, hits: seq<RankedHit>, hit: RankedHit)
    requires IsGrouping(groups, hits) && (groups != [] ==> !Fits(groups[|groups| - 1], hit))
    ensures IsGrouping(groups + [Group(hit.direct, hit.tier, hit.entity.Kind(), 1, [hit])], hits + [hit])
  {
    var grown := groups + [Group(hit.direct, hit.tier, hit.entity.Kind(), 1, [hit])];
    assert grown[..|groups|] == groups;
    forall i | 0 < i < |grown| ensures !Fits(grown[i - 1], grown[i].hits[0]) {
      assert i < |groups| ==> !Fits(groups[i - 1], groups[i].hits[0]);
    }
  }

  method GroupHits(hits: seq<RankedHit>) returns (groups: seq<Group>)
    ensures IsGrouping(groups, hits)
  {
    groups := [];
    for i := 0 to |hits|
      invariant IsGrouping(groups, hits[..i])
    {
      var hit := hits[i];
      assert hits[..i + 1] == hits[..i] + [hit];
      if groups != [] && Fits(groups[|groups| - 1], hit) {
        GrowLastKeeps(groups, hits[..i], hit);
        groups := GrowLast(groups, hit);
      } else {
        NewGroupKeeps(groups, hits[..i], hit);
        groups := groups + [Group(hit.direct, hit.tier, hit.entity.Kind(), 1, [hit])];
      }
    }
    assert hits[..|hits|] == hits;
  }

  lemma FlattenFront(groups: seq<Group>)
    requires groups != []
    ensures Flatten(groups) == groups[0].hits + Flatten(groups[1..])
  {
    if |groups| > 1 {
      var front := groups[..|groups| - 1];
      FlattenFront(front);
      assert front[1..] == groups[1..][..|groups| - 2];
    }
  }

  /** All hits of a group have its directness, tier and kind, and are as many as it says; neighbouring groups
    differ in one of the three. */
  lemma GroupingMeans(groups: seq<Group>, hits: seq<RankedHit>, i: nat)
    requires IsGrouping(groups, hits) && i < |groups|
    ensures var g := groups[i];
            && g.hits != [] && g.hitCount == |g.hits|
            && (forall h :: h in g.hits ==> h.direct == g.direct && h.tier == g.tier && h.entity.Kind() == g.kind)
            && (i > 0 ==> var f := groups[i - 1]; f.direct != g.direct || f.tier != g.tier || f.kind != g.kind)
  {
    var g := groups[i];
    assert WellFormedGroup(g) && Fits(g, g.hits[0]);
    forall h | h in g.hits ensures Fits(g, h) {
      var k :| 0 <= k < |g.hits| && g.hits[k] == h;
    }
    if i > 0 {
      assert !Fits(groups[i - 1], g.hits[0]);
    }
  }

  /** A list of hits has one grouping only. */
  lemma {:induction false} GroupingIsUnique(a: seq<Group>, b: seq<Group>, hits: seq<RankedHit>)
    requires IsGrouping(a, hits) && IsGrouping(b, hits)
    ensures a == b
    decreases |a|
  {
    if a != [] { FlattenFront(a); }
    if b != [] { FlattenFront(b); }
    assert a == [] <==> b == [];
    if a != [] {
      FirstGroupsAgree(a, b, hits);
      GroupingTail(a, hits);
      GroupingTail(b, hits);
      GroupingIsUnique(a[1..], b[1..], hits[|a[0].hits|..]);
    }
  }

  lemma GroupingTail(a: seq<Group>, hits: seq<RankedHit>)
    requires IsGrouping(a, hits) && a != []
    ensures |a[0].hits| <= |hits| && IsGrouping(a[1..], hits[|a[0].hits|..])
  {
    FlattenFront(a);
  }

  lemma FirstRunIsMaximal(a: seq<Group>, hits: seq<RankedHit>)
    requires IsGrouping(a, hits) && a != []
    ensures var n := |a[0].hits|;
            0 < n <= |hits| && hits[..n] == a[0].hits && (n < |hits| ==> !SameGroup(hits[0], hits[n]))
    ensures forall i :: 0 <= i < |a[0].hits| ==> SameGroup(hits[0], hits[i])
  {
    FlattenFront(a);
    assert WellFormedGroup(a[0]);
    forall i | 0 <= i < |a[0].hits| ensures SameGroup(hits[0], hits[i]) {
      assert Fits(a[0], a[0].hits[i]) && Fits(a[0], a[0].hits[0]);
    }
    if |a| > 1 {
      FlattenFront(a[1..]);
      assert WellFormedGroup(a[1]) && !Fits(a[0], a[1].hits[0]);
    }
  }

  lemma FirstGroupsAgree(a: seq<Group>, b: seq<Group>, hits: seq<RankedHit>)
    requires IsGrouping(a, hits) && IsGrouping(b, hits) && a != [] && b != []
    ensures a[0] == b[0]
  {
    FirstRunIsMaximal(a, hits);
    FirstRunIsMaximal(b, hits);
    assert WellFormedGroup(a[0]) && WellFormedGroup(b[0]);
    assert Fits(a[0], a[0].hits[0]) && Fits(b[0], b[0].hits[0]);
    assert |a[0].hits| == |b[0].hits|;
  }

  /* ---- counting ---- */

  function Count(hits: seq<RankedHit>, p: RankedHit -> bool): nat {
    if hits == [] then 0 else Count(hits[..|hits| - 1], p) + if p(hits[|hits| - 1]) then 1 else 0
  }

  function OfTier(t: Tier): RankedHit -> bool { (h: RankedHit) => h.tier == t }

  function IsDirect(direct: bool): RankedHit -> bool { (h: RankedHit) => h.direct == direct }

  /** The counts that the engine makes over the hits themselves. */
  function EngineSummary(hits: seq<RankedHit>): Summary {
    Summary(Count(hits, IsDirect(true)), Count(hits, IsDirect(false)),
            Count(hits, OfTier(Certain)), Count(hits, OfTier(Likely)), Count(hits, OfTier(Possible)))
  }

  function Weight(n: nat, counted: bool): nat { if counted then n else 0 }

  /** The counts that the service makes over the group headers. */
  function GroupSummary(groups: seq<Group>): Summary {
    if groups == [] then Summary(0, 0, 0, 0, 0)
    else
      var s, g := GroupSummary(groups[..|groups| - 1]), groups[|groups| - 1];
      Summary(s.direct + Weight(g.hitCount, g.direct), s.transitive + Weight(g.hitCount, !g.direct),
              s.certain + Weight(g.hitCount, g.tier == Certain), s.likely + Weight(g.hitCount, g.tier == Likely),
              s.possible + Weight(g.hitCount, g.tier == Possible))
  }

  method SummarizeGroups(groups: seq<Group>) returns (summary: Summary)
    ensures summary == GroupSummary(groups)
  {
    var direct: nat, transitive: nat, certain: nat, likely: nat, possible: nat := 0, 0, 0, 0, 0;
    for i := 0 to |groups|
      invariant Summary(direct, transitive, certain, likely, possible) == GroupSummary(groups[..i])
    {
      assert groups[..i + 1][..i] == groups[..i];
      var g := groups[i];
      if g.direct { direct := direct + g.hitCount; } else { transitive := transitive + g.hitCount; }
      match g.tier
      case Certain => certain := certain + g.hitCount;
      case Likely => likely := likely + g.hitCount;
      case Possible => possible := possible + g.hitCount;
    }
    assert groups[..|groups|] == groups;
    summary := Summary(direct, transitive, certain, likely, possible);
  }

  lemma {:induction false} CountAppend(a: seq<RankedHit>, b: seq<RankedHit>, p: RankedHit -> bool)
    ensures Count(a + b, p) == Count(a, p) + Count(b, p)
  {
    if b == [] {
      assert a + b == a;
    } else {
      CountAppend(a, b[..|b| - 1], p);
      assert (a + b)[..|a + b| - 1] == a + b[..|b| - 1];
    }
  }

  lemma {:induction false} CountUniform(hits: seq<RankedHit>, p: RankedHit -> bool, answer: bool)
    requires forall i :: 0 <= i < |hits| ==> p(hits[i]) == answer
    ensures Count(hits, p) == Weight(|hits|, answer)
  {
    if hits != [] {
      CountUniform(hits[..|hits| - 1], p, answer);
    }
  }

  ghost predicate AllWellFormed(groups: seq<Group>) {
    forall i :: 0 <= i < |groups| ==> WellFormedGroup(groups[i])
  }

  /** Both ways of counting agree. */
  lemma {:induction false} SummariesAgree(groups: seq<Group>)
    requires AllWellFormed(groups)
    ensures GroupSummary(groups) == EngineSummary(Flatten(groups))
  {
    if groups != [] {
      var front, g := groups[..|groups| - 1], groups[|groups| - 1];
      SummariesAgree(front);
      assert WellFormedGroup(g);
      CountGroup(Flatten(front), g, IsDirect(true), g.direct);
      CountGroup(Flatten(front), g, IsDirect(false), !g.direct);
      CountGroup(Flatten(front), g, OfTier(Certain), g.tier == Certain);
      CountGroup(Flatten(front), g, OfTier(Likely), g.tier == Likely);
      CountGroup(Flatten(front), g, OfTier(Possible), g.tier == Possible);
    }
  }

  lemma CountGroup(before: seq<RankedHit>, g: Group, p: RankedHit -> bool, answer: bool)
    requires WellFormedGroup(g) && forall i :: 0 <= i < |g.hits| ==> p(g.hits[i]) == answer
    ensures Count(before + g.hits, p) == Count(before, p) + Weight(g.hitCount, answer)
  {
    CountAppend(before, g.hits, p);
    CountUniform(g.hits, p, answer);
  }

  /** No hit is lost or counted twice. */
  lemma {:induction false} SummaryConserves(hits: seq<RankedHit>)
    ensures var s := EngineSummary(hits);
            s.direct + s.transitive == |hits| && s.certain + s.likely + s.possible == |hits|
  {
    if hits != [] {
      SummaryConserves(hits[..|hits| - 1]);
    }
  }

  ghost function Places(hits: seq<RankedHit>, p: RankedHit -> bool): set<nat> {
    set i: nat | i < |hits| && p(hits[i])
  }

  lemma {:induction false} CountIsCardinality(hits: seq<RankedHit>, p: RankedHit -> bool)
    ensures Count(hits, p) == |Places(hits, p)|
  {
    if hits != [] {
      var n := |hits| - 1;
      CountIsCardinality(hits[..n], p);
      assert Places(hits, p) == Places(hits[..n], p) + if p(hits[n]) then {n} else {};
    }
  }

  /** Each count is the number of places at which such a hit stands. */
  lemma SummaryCounts(hits: seq<RankedHit>)
    ensures var s := EngineSummary(hits);
            && s.direct == |set i: nat | i < |hits| && hits[i].direct|
            && s.transitive == |set i: nat | i < |hits| && !hits[i].direct|
            && s.certain == |set i: nat | i < |hits| && hits[i].tier == Certain|
            && s.likely == |set i: nat | i < |hits| && hits[i].tier == Likely|
            && s.possible == |set i: nat | i < |hits| && hits[i].tier == Possible|
  {
    CountIsCardinality(hits, IsDirect(true));
    CountIsCardinality(hits, IsDirect(false));
    CountIsCardinality(hits, OfTier(Certain));
    CountIsCardinality(hits, OfTier(Likely));
    CountIsCardinality(hits, OfTier(Possible));
    assert Places(hits, IsDirect(true)) == set i: nat | i < |hits| && hits[i].direct;
    assert Places(hits, IsDirect(false)) == set i: nat | i < |hits| && !hits[i].direct;
    assert Places(hits, OfTier(Certain)) == set i: nat | i < |hits| && hits[i].tier == Certain;
    assert Places(hits, OfTier(Likely)) == set i: nat | i < |hits| && hits[i].tier == Likely;
    assert Places(hits, OfTier(Possible)) == set i: nat | i < |hits| && hits[i].tier == Possible;
  }

  /* ---- the service's analysis policy ---- */

  function CapPaths(h: RankedHit, cap: nat): RankedHit {
    if |h.reasonPaths| <= cap then h else h.(reasonPaths := h.reasonPaths[..cap])
  }

  function CapHits(hits: seq<RankedHit>, cap: nat): seq<RankedHit> {
    seq(|hits|, i requires 0 <= i < |hits| => CapPaths(hits[i], cap))
  }

  predicate Dropped(g: Group, includePossible: bool) {
    (!includePossible && g.tier == Possible) || g.hits == []
  }

  function PolicyGroups(groups: seq<Group>, includePossible: bool, cap: nat): seq<Group> {
    if groups == [] then []
    else
      var rest, g := PolicyGroups(groups[..|groups| - 1], includePossible, cap), groups[|groups| - 1];
      if Dropped(g, includePossible) then rest else rest + [g.(hits := CapHits(g.hits, cap), hitCount := |g.hits|)]
  }

  method ApplyAnalyzePolicy(groups: seq<Group>, includePossible: bool, cap: nat)
    returns (result: seq<Group>, summary: Summary)
    ensures result == PolicyGroups(groups, includePossible, cap)
    ensures summary == GroupSummary(result)
  {
    result := [];
    for i := 0 to |groups|
      invariant result == PolicyGroups(groups[..i], includePossible, cap)
    {
      assert groups[..i + 1][..i] == groups[..i];
      var group := groups[i];
      if !includePossible && group.tier == Possible {
        continue;
      }
      var hits: seq<RankedHit> := [];
      for j := 0 to |group.hits|
        invariant hits == CapHits(group.hits[..j], cap)
      {
        hits := hits + [CapPaths(group.hits[j], cap)];
        assert hits == CapHits(group.hits[..j + 1], cap);
      }
      assert group.hits[..|group.hits|] == group.hits;
      if hits != [] {
        result := result + [group.(hits := hits, hitCount := |hits|)];
      }
    }
    assert groups[..|groups|] == groups;
    summary := SummarizeGroups(result);
  }

  lemma CappedGroupIsWellFormed(g: Group, cap: nat)
    requires WellFormedGroup(g)
    ensures WellFormedGroup(g.(hits := CapHits(g.hits, cap), hitCount := |g.hits|))
  {
    var capped := g.(hits := CapHits(g.hits, cap), hitCount := |g.hits|);
    forall i | 0 <= i < |capped.hits| ensures Fits(capped, capped.hits[i]) {
      assert Fits(g, g.hits[i]);
    }
  }

  lemma {:induction false} PolicyKeepsGroups(groups: seq<Group>, includePossible: bool, cap: nat)
    requires AllWellFormed(groups)
    ensures AllWellFormed(PolicyGroups(groups, includePossible, cap))
  {
    hide WellFormedGroup;
    if groups != [] {
      var g := groups[|groups| - 1];
      PolicyKeepsGroups(groups[..|groups| - 1], includePossible, cap);
      assert WellFormedGroup(g);
      CappedGroupIsWellFormed(g, cap);
    }
  }

  lemma AddToSummary(groups: seq<Group>, g: Group)
    ensures var s, t := GroupSummary(groups), GroupSummary(groups + [g]);
            t == Summary(s.direct + Weight(g.hitCount, g.direct), s.transitive + Weight(g.hitCount, !g.direct),
                         s.certain + Weight(g.hitCount, g.tier == Certain),
                         s.likely + Weight(g.hitCount, g.tier == Likely),
                         s.possible + Weight(g.hitCount, g.tier == Possible))
  {
    assert (groups + [g])[..|groups|] == groups;
  }

  lemma {:induction false} PolicyCounts(groups: seq<Group>, includePossible: bool, cap: nat)
    requires AllWellFormed(groups)
    ensures var before, after := GroupSummary(groups), GroupSummary(PolicyGroups(groups, includePossible, cap));
            && (includePossible ==> after == before)
            && (!includePossible ==>
                  after.certain == before.certain && after.likely == before.likely && after.possible == 0)
  {
    if groups != [] {
      var front, g := groups[..|groups| - 1], groups[|groups| - 1];
      var rest := PolicyGroups(front, includePossible, cap);
      PolicyCounts(front, includePossible, cap);
      assert WellFormedGroup(g);
      hide WellFormedGroup;
      AddToSummary(front, g);
      AddToSummary(rest, g.(hits := CapHits(g.hits, cap), hitCount := |g.hits|));
      assert groups == front + [g];
      hide GroupSummary;
    }
  }

  /** The policy keeps every group consistent, so that its summary still counts its own hits;
    without Possible results it leaves out exactly the Possible ones. */
  lemma PolicyKeepsCounts(groups: seq<Group>, includePossible: bool, cap: nat)
    requires AllWellFormed(groups)
    ensures var result, before := PolicyGroups(groups, includePossible, cap), GroupSummary(groups);
            && AllWellFormed(result)
            && GroupSummary(result) == EngineSummary(Flatten(result))
            && (includePossible ==> GroupSummary(result) == before)
            && (!includePossible ==>
                  && GroupSummary(result).certain == before.certain
                  && GroupSummary(result).likely == before.likely
                  && GroupSummary(result).possible == 0
                  && |Flatten(result)| == before.certain + before.likely)
  {
    PolicyKeepsGroups(groups, includePossible, cap);
    PolicyCounts(groups, includePossible, cap);
    SummariesAgree(PolicyGroups(groups, includePossible, cap));
    SummaryConserves(Flatten(PolicyGroups(groups, includePossible, cap)));
  }

  /** When possible results are kept and the path cap does not bind, the policy changes nothing. */
  lemma {:induction false} PolicyIsIdentity(groups: seq<Group>, cap: nat)
    requires AllWellFormed(groups)
    requires forall i, j :: 0 <= i < |groups| && 0 <= j < |groups[i].hits| ==> |groups[i].hits[j].reasonPaths| <= cap
    ensures PolicyGroups(groups, true, cap) == groups
  {
    if groups != [] {
      var front, g := groups[..|groups| - 1], groups[|groups| - 1];
      PolicyIsIdentity(front, cap);
      assert WellFormedGroup(g);
      assert CapHits(g.hits, cap) == g.hits;
    }
  }

  /* ---- ranks survive the policy ---- */

  ghost predicate TiersAscend(hits: seq<RankedHit>) {
    forall i, j :: 0 <= i < j < |hits| ==> TierRank(hits[i].tier) <= TierRank(hits[j].tier)
  }

  ghost predicate RanksCount(hits: seq<RankedHit>) {
    forall i :: 0 <= i < |hits| ==> hits[i].rank == i + 1
  }

  lemma RankedHitsAscend(kept: map<string, Candidate>, ranking: seq<Candidate>, limit: nat, paths: bool)
    requires IsRanking(kept, ranking)
    ensures var hits := RankedHits(Truncated(ranking, limit), paths); TiersAscend(hits) && RanksCount(hits)
  {
    var cut := Truncated(ranking, limit);
    var hits := RankedHits(cut, paths);
    forall i, j | 0 <= i < j < |hits| ensures TierRank(hits[i].tier) <= TierRank(hits[j].tier) {
      assert HitLess(ranking[i], ranking[j]);
    }
  }

  lemma {:induction false} NoPossibleKeepsAll(groups: seq<Group>, cap: nat)
    requires AllWellFormed(groups) && forall i :: 0 <= i < |groups| ==> groups[i].tier != Possible
    ensures Flatten(PolicyGroups(groups, false, cap)) == CapHits(Flatten(groups), cap)
  {
    if groups != [] {
      NoPossibleKeepsAll(groups[..|groups| - 1], cap);
      assert WellFormedGroup(groups[|groups| - 1]);
    }
  }

  /** Possible hits come last, so leaving them out leaves a prefix: ranks stay 1, 2, ... without
    gaps, whatever the path cap. */
  lemma {:induction false} PolicyKeepsRanks(groups: seq<Group>, hits: seq<RankedHit>, cap: nat) returns (n: nat)
    requires IsGrouping(groups, hits) && TiersAscend(hits) && RanksCount(hits)
    ensures n <= |hits| && Flatten(PolicyGroups(groups, false, cap)) == CapHits(hits[..n], cap)
    ensures RanksCount(Flatten(PolicyGroups(groups, false, cap)))
    ensures forall i :: 0 <= i < |hits| ==> (i < n <==> hits[i].tier != Possible)
  {
    if groups == [] {
      n := 0;
    } else {
      var front, g := groups[..|groups| - 1], groups[|groups| - 1];
      assert WellFormedGroup(g) && Fits(g, g.hits[0]);
      if g.tier == Possible {
        var m := |hits| - |g.hits|;
        assert Flatten(front) == hits[..m];
        forall k | m <= k < |hits| ensures hits[k].tier == Possible {
          assert Fits(g, g.hits[k - m]) && hits[k] == g.hits[k - m];
        }
        n := PolicyKeepsRanks(front, hits[..m], cap);
        assert hits[..m][..n] == hits[..n];
        forall i | 0 <= i < m ensures hits[i].tier != Possible <==> i < n {
          assert hits[..m][i] == hits[i];
        }
      } else {
        n := |hits|;
        GroupTiersNotPossible(groups, hits);
        NoPossibleKeepsAll(groups, cap);
        assert hits[..n] == hits;
      }
    }
  }

  lemma {:induction false} KeepingPossibleKeepsAll(groups: seq<Group>, cap: nat)
    requires AllWellFormed(groups)
    ensures Flatten(PolicyGroups(groups, true, cap)) == CapHits(Flatten(groups), cap)
  {
    if groups != [] {
      KeepingPossibleKeepsAll(groups[..|groups| - 1], cap);
      assert WellFormedGroup(groups[|groups| - 1]);
    }
  }

  /** The same hit with its first evidence paths, as many as the cap allows. */
  predicate IsCapped(h: RankedHit, before: RankedHit, cap: nat) {
    && h == before.(reasonPaths := h.reasonPaths)
    && h.reasonPaths <= before.reasonPaths
    && |h.reasonPaths| == if cap <= |before.reasonPaths| then cap else |before.reasonPaths|
  }

  /** After the policy the hits are the same ones in the same places, with capped evidence: all of them, or
    all that are not Possible. */
  lemma PolicyShows(groups: seq<Group>, hits: seq<RankedHit>, includePossible: bool, cap: nat)
    requires IsGrouping(groups, hits) && TiersAscend(hits) && RanksCount(hits)
    ensures var shown := Flatten(PolicyGroups(groups, includePossible, cap));
            && |shown| <= |hits| && (includePossible ==> |shown| == |hits|)
            && (forall i :: 0 <= i < |shown| ==> IsCapped(shown[i], hits[i], cap))
            && (!includePossible ==> forall i :: 0 <= i < |hits| ==> (i < |shown| <==> hits[i].tier != Possible))
  {
    hide IsGrouping;
    hide CapHits;
    hide PolicyGroups;
    hide IsCapped;
    hide TiersAscend;
    hide RanksCount;
    if includePossible {
      GroupingParts(groups, hits);
      KeepingPossibleKeepsAll(groups, cap);
      assert hits[..|hits|] == hits;
      CappedHits(hits, |hits|, cap);
    } else {
      var n := PolicyKeepsRanks(groups, hits, cap);
      CappedHits(hits, n, cap);
    }
  }

  lemma GroupingParts(groups: seq<Group>, hits: seq<RankedHit>)
    requires IsGrouping(groups, hits)
    ensures AllWellFormed(groups) && Flatten(groups) == hits
  {
  }

  lemma CappedHits(hits: seq<RankedHit>, n: nat, cap: nat)
    requires n <= |hits|
    ensures |CapHits(hits[..n], cap)| == n
    ensures forall i :: 0 <= i < n ==> IsCapped(CapHits(hits[..n], cap)[i], hits[i], cap)
  {
  }

  /** If the last group is not Possible, none is. */
  lemma GroupTiersNotPossible(groups: seq<Group>, hits: seq<RankedHit>)
    requires IsGrouping(groups, hits) && TiersAscend(hits) && groups != [] && groups[|groups| - 1].tier != Possible
    ensures forall i :: 0 <= i < |groups| ==> groups[i].tier != Possible
    ensures forall i :: 0 <= i < |hits| ==> hits[i].tier != Possible
  {
    var last := groups[|groups| - 1];
    assert WellFormedGroup(last) && Fits(last, last.hits[|last.hits| - 1]);
    assert hits[|hits| - 1] == last.hits[|last.hits| - 1];
    forall i | 0 <= i < |hits| ensures hits[i].tier != Possible {
      assert i < |hits| - 1 ==> TierRank(hits[i].tier) <= TierRank(hits[|hits| - 1].tier);
    }
    forall i | 0 <= i < |groups| ensures groups[i].tier != Possible {
      assert WellFormedGroup(groups[i]) && Fits(groups[i], groups[i].hits[0]);
      var k := MemberOfFlatten(groups, i);
      assert hits[k] == groups[i].hits[0];
    }
  }

  lemma {:induction false} MemberOfFlatten(groups: seq<Group>, i: nat) returns (k: nat)
    requires i < |groups| && groups[i].hits != []
    ensures k < |Flatten(groups)| && Flatten(groups)[k] == groups[i].hits[0]
  {
    if i == |groups| - 1 {
      k := |Flatten(groups[..|groups| - 1])|;
    } else {
      k := MemberOfFlatten(groups[..|groups| - 1], i);
    }
  }
}
