/** Entities, evidence, frames and candidate hits of the impact engine, with the keys and
  the comparisons that the engine sorts, dedups and improves by. */
module ImpactModel {
  import opened Ordering

  datatype Tier = Certain | Likely | Possible

  datatype Scenario = ModifyBehavior | SignatureChange | Rename | Delete

  datatype Reason =
    | Seed | Contains | Defines | References | Imports | Exports | DeclaredInFile
    | ReferencedByFile | ImportedByFile | PackageMember | TestReference | TestAffinity

  datatype Kind = SymbolKind | FileKind | PackageKind | TestKind

  datatype Entity =
    | Symbol(symbolId: string, path: string, displayName: string)
    | File(path: string)
    | Package(name: string, root: string)
    | Test(path: string, displayName: string, owner: Option<string>)
  {
    function Kind(): Kind {
      match this
      case Symbol(_, _, _) => SymbolKind
      case File(_) => FileKind
      case Package(_, _) => PackageKind
      case Test(_, _, _) => TestKind
    }

    function Key(): string {
      match this
      case Symbol(id, _, _) => "symbol:" + id
      case File(path) => "file:" + path
      case Package(name, root) => "package:" + root + ":" + name
      case Test(path, _, owner) => "test:" + path + ":" + (if owner.Some? then owner.value else "")
    }

    function AnchorPath(): string {
      match this
      case Symbol(_, path, _) => path
      case File(path) => path
      case Package(_, root) => root
      case Test(path, _, _) => path
    }
  }

  datatype Node = SymbolNode(id: string) | FileNode(path: string) {
    function Key(): string {
      match this
      case SymbolNode(id) => "symbol:" + id
      case FileNode(path) => "file:" + path
    }
  }

  /** A `BTreeMap<String, String>`: pairs in increasing order of their first component. */
  type Metadata = seq<(string, string)>

  function MetaInsert(m: Metadata, key: string, value: string): Metadata {
    if m == [] || StrLess(key, m[0].0) then [(key, value)] + m
    else if m[0].0 == key then [(key, value)] + m[1..]
    else [m[0]] + MetaInsert(m[1..], key, value)
  }

  function MetaGet(m: Metadata, key: string): Option<string> {
    if m == [] then None
    else if m[0].0 == key then Some(m[0].1)
    else MetaGet(m[1..], key)
  }

  /** Inserting under one key leaves what is stored under any other. */
  lemma {:induction false} InsertKeepsOthers(m: Metadata, key: string, value: string, other: string)
    requires key != other
    ensures MetaGet(MetaInsert(m, key, value), other) == MetaGet(m, other)
    ensures MetaGet(MetaInsert(m, key, value), key) == Some(value)
  {
    if m == [] || StrLess(key, m[0].0) {
      assert ([(key, value)] + m)[1..] == m;
    } else if m[0].0 == key {
      assert ([(key, value)] + m[1..])[1..] == m[1..];
    } else {
      InsertKeepsOthers(m[1..], key, value, other);
      assert ([m[0]] + MetaInsert(m[1..], key, value))[1..] == MetaInsert(m[1..], key, value);
    }
  }

  function MetaKey(m: Metadata): string {
    Join(seq(|m|, i requires 0 <= i < |m| => m[i].0 + "=" + m[i].1), ";")
  }

  datatype Edge = Edge(kind: Reason, from: Entity, to: Entity, metadata: Metadata)

  type ReasonPath = seq<Edge>

  datatype Step = Step(entity: Entity, next: Option<Node>, tier: Tier, reason: Reason, score: nat, metadata: Metadata)

  datatype Frame = Frame(node: Node, entity: Entity, tier: Tier, depth: nat, score: nat, path: ReasonPath)

  datatype Candidate = Candidate(
    entity: Entity,
    tier: Tier,
    reason: Reason,
    depth: nat,
    direct: bool,
    score: nat,
    shortest: nat,
    pathRelevance: nat,
    testRelevance: nat,
    reasonPaths: seq<ReasonPath>)

  datatype Policy = Policy(
    includeConsumerFiles: bool,
    includeHeuristicTests: bool,
    maxDepth: nat,
    maxNodes: nat,
    maxEdges: nat,
    maxCandidates: nat)

  /* ---- ranks ---- */

  function TierRank(t: Tier): nat {
    match t case Certain => 0 case Likely => 1 case Possible => 2
  }

  function ReasonRank(r: Reason): nat {
    match r
    case Seed => 0 case References => 1 case Imports => 2 case Exports => 3
    case DeclaredInFile => 4 case Contains => 5 case ImportedByFile => 6 case ReferencedByFile => 7
    case TestReference => 8 case PackageMember => 9 case TestAffinity => 10 case Defines => 11
  }

  /** The rank as the decimal text it has inside a joined key. */
  function ReasonRankText(r: Reason): string {
    match r
    case Seed => "0" case References => "1" case Imports => "2" case Exports => "3"
    case DeclaredInFile => "4" case Contains => "5" case ImportedByFile => "6" case ReferencedByFile => "7"
    case TestReference => "8" case PackageMember => "9" case TestAffinity => "10" case Defines => "11"
  }

  function KindRank(k: Kind): nat {
    match k case SymbolKind => 0 case FileKind => 1 case TestKind => 2 case PackageKind => 3
  }

  /** The worse of two tiers. */
  function Combine(current: Tier, next: Tier): Tier {
    if TierRank(current) >= TierRank(next) then current else next
  }

  function DepthPenalty(score: nat, depth: nat): nat {
    var penalty := (if depth == 0 then 0 else depth - 1) * 40;
    if score < penalty then 0 else score - penalty
  }

  /* ---- evidence paths ---- */

  function EdgeText(e: Edge): string {
    ReasonRankText(e.kind) + ":" + e.from.Key() + ":" + e.to.Key() + ":" + MetaKey(e.metadata)
  }

  function PathText(path: ReasonPath): string {
    Join(seq(|path|, i requires 0 <= i < |path| => EdgeText(path[i])), "|")
  }

  predicate ReasonPathLess(a: ReasonPath, b: ReasonPath) {
    |a| < |b| || (|a| == |b| && StrLess(PathText(a), PathText(b)))
  }

  predicate ReasonPathsLess(a: seq<ReasonPath>, b: seq<ReasonPath>) {
    a != [] && (b == [] || ReasonPathLess(a[0], b[0]))
  }

  function PathLength(path: ReasonPath): nat {
    if path != [] && path[0].kind == Seed then |path| - 1 else |path|
  }

  function ShortestReasonPath(paths: seq<ReasonPath>, depth: nat): nat {
    if paths == [] then depth
    else
      var rest := ShortestReasonPath(paths[1..], PathLength(paths[0]));
      if PathLength(paths[0]) <= rest then PathLength(paths[0]) else rest
  }

  /* ---- traversal steps: sort order and identity ---- */

  function NextKey(next: Option<Node>): string {
    if next.Some? then next.value.Key() else ""
  }

  /** `compare_steps`: tier, reason, kind, next node, metadata, then the entity key. */
  predicate StepLess(a: Step, b: Step) {
    if a.tier != b.tier then TierRank(a.tier) < TierRank(b.tier)
    else if a.reason != b.reason then ReasonRank(a.reason) < ReasonRank(b.reason)
    else if a.entity.Kind() != b.entity.Kind() then KindRank(a.entity.Kind()) < KindRank(b.entity.Kind())
    else if NextKey(a.next) != NextKey(b.next) then StrLess(NextKey(a.next), NextKey(b.next))
    else if MetaKey(a.metadata) != MetaKey(b.metadata) then StrLess(MetaKey(a.metadata), MetaKey(b.metadata))
    else StrLess(a.entity.Key(), b.entity.Key())
  }

  predicate SameStep(a: Step, b: Step) {
    && a.entity.Key() == b.entity.Key()
    && a.reason == b.reason
    && NextKey(a.next) == NextKey(b.next)
    && MetaKey(a.metadata) == MetaKey(b.metadata)
  }

  /** The list the engine iterates over: sorted, then consecutive duplicates dropped. */
  function OrderedSteps(raw: seq<Step>): seq<Step> {
    DedupBy(SameStep, SortBy(StepLess, raw))
  }

  /* ---- frames ---- */

  /** `frame_cmp_key(a) < frame_cmp_key(b)`. */
  predicate FrameLess(a: Frame, b: Frame) {
    if a.tier != b.tier then TierRank(a.tier) < TierRank(b.tier)
    else if a.depth != b.depth then a.depth < b.depth
    else if a.score != b.score then a.score > b.score
    else StrLess(PathText(a.path), PathText(b.path))
  }

  predicate SameFrameKey(a: Frame, b: Frame) {
    a.tier == b.tier && a.depth == b.depth && a.score == b.score && PathText(a.path) == PathText(b.path)
  }

  lemma FrameLessTransitive(a: Frame, b: Frame, c: Frame)
    requires FrameLess(a, b) && FrameLess(b, c)
    ensures FrameLess(a, c)
  {
    if SameFrameKey(a.(path := []), b.(path := [])) && SameFrameKey(b.(path := []), c.(path := [])) {
      StrTransitive(PathText(a.path), PathText(b.path), PathText(c.path));
    }
  }

  lemma FrameLessIrreflexive(a: Frame, b: Frame)
    requires SameFrameKey(a, b)
    ensures !FrameLess(a, b)
  {
    StrIrreflexive(PathText(a.path));
  }

  /* ---- candidate hits ---- */

  /** `candidate_cmp_key(a) < candidate_cmp_key(b)`. */
  predicate CandidateLess(a: Candidate, b: Candidate) {
    if a.tier != b.tier then TierRank(a.tier) < TierRank(b.tier)
    else if a.shortest != b.shortest then a.shortest < b.shortest
    else if a.reason != b.reason then ReasonRank(a.reason) < ReasonRank(b.reason)
    else if a.depth != b.depth then a.depth < b.depth
    else if a.testRelevance != b.testRelevance then a.testRelevance < b.testRelevance
    else if a.pathRelevance != b.pathRelevance then a.pathRelevance < b.pathRelevance
    else if a.score != b.score then a.score > b.score
    else KindRank(a.entity.Kind()) < KindRank(b.entity.Kind())
  }

  predicate SameCandidateKey(a: Candidate, b: Candidate) {
    && a.tier == b.tier && a.shortest == b.shortest && a.reason == b.reason && a.depth == b.depth
    && a.testRelevance == b.testRelevance && a.pathRelevance == b.pathRelevance && a.score == b.score
    && a.entity.Kind() == b.entity.Kind()
  }

  /** Order by which an offer replaces the kept candidate: key first, then evidence path. */
  predicate OfferLess(a: Candidate, b: Candidate) {
    CandidateLess(a, b) || (SameCandidateKey(a, b) && ReasonPathsLess(a.reasonPaths, b.reasonPaths))
  }

  function AddCandidate(kept: map<string, Candidate>, c: Candidate): map<string, Candidate> {
    var key := c.entity.Key();
    if key !in kept || OfferLess(c, kept[key]) then kept[key := c]
    else if kept[key].reasonPaths == [] && c.reasonPaths != [] then
      kept[key := kept[key].(reasonPaths := c.reasonPaths)]
    else kept
  }

  lemma OfferLessTransitive(a: Candidate, b: Candidate, c: Candidate)
    requires OfferLess(a, b) && OfferLess(b, c)
    ensures OfferLess(a, c)
  {
    if SameCandidateKey(a, b) && SameCandidateKey(b, c) && c.reasonPaths != []
       && |a.reasonPaths[0]| == |b.reasonPaths[0]| == |c.reasonPaths[0]| {
      StrTransitive(PathText(a.reasonPaths[0]), PathText(b.reasonPaths[0]), PathText(c.reasonPaths[0]));
    }
  }

  lemma OfferLessIrreflexive(a: Candidate)
    ensures !OfferLess(a, a)
  {
    if a.reasonPaths != [] {
      StrIrreflexive(PathText(a.reasonPaths[0]));
    }
  }

  /* ---- keys ---- */

  lemma NodeKeyInjective(a: Node, b: Node)
    requires a.Key() == b.Key()
    ensures a == b
  {
    assert a.Key()[0] == b.Key()[0];
    match a
    case SymbolNode(id) => assert a.Key()[7..] == id && b.Key()[7..] == b.id;
    case FileNode(path) => assert a.Key()[5..] == path && b.Key()[5..] == b.path;
  }

  /** Joined package and test keys can collide, but never across kinds. */
  lemma EqualKeysEqualKinds(a: Entity, b: Entity)
    requires a.Key() == b.Key()
    ensures a.Kind() == b.Kind()
    ensures a.Symbol? ==> a.symbolId == b.symbolId
    ensures a.File? ==> a == b
  {
    assert a.Key()[0] == b.Key()[0];
    if a.Symbol? {
      assert a.Key()[7..] == a.symbolId && b.Key()[7..] == b.symbolId;
    }
    if a.File? {
      assert a.Key()[5..] == a.path && b.Key()[5..] == b.path;
    }
  }
}
