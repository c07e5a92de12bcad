/** What the steps at a node mean, read off the enrichment maps.

  `Related` says, without mentioning lists of steps, which steps lead away from a node: where to, why,
  how surely, at what score, on what evidence, and where the search goes on.  The expansion of a node
  gives exactly those, the ones back to the node itself excepted. */
module Adjacency {
  import opened Ordering
  import opened ImpactModel
  import opened Enrichment
  import opened TestPaths

  predicate Has<T(==)>(m: map<string, seq<T>>, key: string, x: T) {
    key in m && x in m[key]
  }

  /* ---- where a step leads ---- */

  /** The plan folds symbol `id` into `c`. */
  predicate Folds(plan: Plan, id: string, c: string) {
    c == if id in plan.canonical then plan.canonical[id] else id
  }

  predicate Names(plan: Plan, id: string, name: string) {
    name == if id in plan.displayNames then plan.displayNames[id] else id
  }

  /** A Certain step to what symbol `id` is folded into; the search goes on there. */
  predicate ToSymbol(plan: Plan, id: string, reason: Reason, score: nat, metadata: Metadata, s: Step) {
    && s.entity.Symbol? && Folds(plan, id, s.entity.symbolId) && Names(plan, s.entity.symbolId, s.entity.displayName)
    && s.entity.path == (if s.entity.symbolId in plan.symbolToFile then plan.symbolToFile[s.entity.symbolId] else "")
    && s.next == Some(SymbolNode(s.entity.symbolId)) && s.tier == Certain
    && s.reason == reason && s.score == score && s.metadata == metadata
  }

  /** A step to a file; the search goes on there unless the step says otherwise. */
  predicate ToFile(path: string, onward: bool, tier: Tier, reason: Reason, score: nat, metadata: Metadata, s: Step) {
    s == Step(File(path), if onward then Some(FileNode(path)) else None, tier, reason, score, metadata)
  }

  /** A test ends the chain; it is shown under the name of its symbol, or else of its file. */
  predicate ToTest(inp: Inputs, path: string, owner: Option<string>, tier: Tier, reason: Reason, score: nat,
                   metadata: Metadata, s: Step) {
    && s.entity.Test? && s.entity.path == path && s.entity.owner == owner && s.next == None
    && s.entity.displayName == (if owner.Some? && owner.value in inp.plan.displayNames
                                then inp.plan.displayNames[owner.value] + " test"
                                else if FileName(path) == "" then path else FileName(path))
    && s.tier == tier && s.reason == reason && s.metadata == metadata
    && s.score == score + if path in inp.testBonus then inp.testBonus[path] else 0
  }

  predicate ToPackage(m: Membership, s: Step) {
    s == Step(Package(m.name, m.root), None, Likely, PackageMember, 620, [("package_root", m.root)])
  }

  /** Files that consume what changes: certainly broken by a change of signature, name or existence. */
  function FileTier(scenario: Scenario): Tier {
    match scenario
    case ModifyBehavior => Likely
    case SignatureChange => Certain
    case Rename => Certain
    case Delete => Certain
  }

  /* ---- the relation ---- */

  function AssociationMetadata(a: Association, kind: string, scope: Option<string>): Metadata {
    [("detail", a.detail), ("evidence", kind)]
    + (if a.owner.Some? then [("owner_symbol_id", a.owner.value)] else [])
    + (if scope.Some? then [("scope", scope.value)] else [])
    + [("test_path", a.testPath)]
  }

  /** A test association vouches for its test: by reference, or by affinity where that is considered. */
  predicate Vouches(inp: Inputs, heuristics: bool, scope: Option<string>, a: Association, s: Step) {
    match a.evidence
    case ReferencesSymbol =>
      ToTest(inp, a.testPath, a.owner, Certain, TestReference, 890,
             AssociationMetadata(a, "referencessymbol", scope), s)
    case ImportsFile =>
      ToTest(inp, a.testPath, a.owner, Certain, TestReference, 880,
             AssociationMetadata(a, "importsfile", scope), s)
    case PathHeuristic =>
      && heuristics
      && ToTest(inp, a.testPath, a.owner, if inp.scenario == SignatureChange then Likely else Possible,
                TestAffinity, 420, AssociationMetadata(a, "pathheuristic", scope), s)
  }

  /** The reference occurs in another symbol, or in a file that is considered for itself. */
  ghost predicate Refers(inp: Inputs, consumers: bool, id: string, r: ReverseReference, s: Step) {
    var metadata := [("occurrence_id", r.occurrenceId), ("path", r.path)];
    || (r.owner.Some? && !Folds(inp.plan, r.owner.value, id)
        && ToSymbol(inp.plan, r.owner.value, References, 950, metadata, s))
    || ((consumers || r.owner.None?)
        && ToFile(r.path, !IsTestFile(r.path), FileTier(inp.scenario), ReferencedByFile, 760, metadata, s))
  }

  ghost predicate ImportedFrom(inp: Inputs, consumers: bool, importer: string, s: Step) {
    || ToSymbol(inp.plan, importer, Imports, 930, [], s)
    || (consumers && exists id :: Folds(inp.plan, importer, id) && OwnerImports(inp, id, s))
  }

  /** The file that declares the importing symbol. */
  predicate OwnerImports(inp: Inputs, id: string, s: Step) {
    && id in inp.plan.symbolToFile
    && ToFile(inp.plan.symbolToFile[id], true, FileTier(inp.scenario), ImportedByFile, 770,
              [("path", inp.plan.symbolToFile[id])], s)
  }

  ghost predicate DependsOnFile(inp: Inputs, dependent: string, s: Step) {
    if IsTestFile(dependent) then ToTest(inp, dependent, None, Certain, TestReference, 880, [("path", dependent)], s)
    else ToFile(dependent, true, FileTier(inp.scenario), ImportedByFile, 860, [("path", dependent)], s)
  }

  ghost predicate Tested(inp: Inputs, heuristics: bool, scope: Option<string>, m: map<string, seq<Association>>,
                         key: string, s: Step) {
    exists a :: Has(m, key, a) && Vouches(inp, heuristics, scope, a, s)
  }

  ghost predicate SymbolRelated(inp: Inputs, consumers: bool, heuristics: bool, id: string, s: Step) {
    var plan := inp.plan;
    || (id in plan.symbolToFile && ToFile(plan.symbolToFile[id], true, Certain, DeclaredInFile, 900, [], s))
    || (id in plan.packageBySymbol && ToPackage(plan.packageBySymbol[id], s))
    || (exists r :: Has(plan.reverseReferences, id, r) && Refers(inp, consumers, id, r, s))
    || (exists i :: Has(plan.reverseImports, id, i) && ImportedFrom(inp, consumers, i, s))
    || (exists e :: Has(plan.reverseExports, id, e) && ToSymbol(plan, e, Exports, 920, [], s))
    || Tested(inp, heuristics, None, plan.testsBySymbol, id, s)
    || (exists name :: id in plan.symbolToFile && Names(plan, id, name)
                       && Tested(inp, heuristics, Some(name), plan.testsByFile, plan.symbolToFile[id], s))
  }

  ghost predicate FileRelated(inp: Inputs, heuristics: bool, path: string, s: Step) {
    var plan := inp.plan;
    || (exists m :: Has(plan.fileToSymbols, path, m) && ToSymbol(plan, m, Contains, 900, [], s))
    || (path in plan.packageByFile && ToPackage(plan.packageByFile[path], s))
    || (exists d :: Has(plan.reverseDependents, path, d) && DependsOnFile(inp, d, s))
    || Tested(inp, heuristics, None, plan.testsByFile, path, s)
  }

  /** The step leads away from the node, as the maps have it; `consumers` and `heuristics` say whether
    files that refer or import, and tests found by their path only, are considered. */
  ghost predicate Related(inp: Inputs, consumers: bool, heuristics: bool, node: Node, s: Step) {
    match node
    case SymbolNode(id) => exists c :: Folds(inp.plan, id, c) && SymbolRelated(inp, consumers, heuristics, c, s)
    case FileNode(path) => FileRelated(inp, heuristics, path, s)
  }

  /* ---- lists of steps ---- */

  lemma {:induction false} FlatMapContains<A, B>(f: A -> seq<B>, items: seq<A>, a: A, b: B)
    requires a in items && b in f(a)
    ensures b in FlatMap(f, items)
  {
    var front, last := items[..|items| - 1], items[|items| - 1];
    assert items == front + [last];
    if a in front {
      FlatMapContains(f, front, a, b);
    }
  }

  /** A loop over the items of a map entry contributes what some item contributes. */
  lemma FlatMapListed<A>(f: A -> seq<Step>, m: map<string, seq<A>>, key: string, s: Step)
    ensures s in FlatMap(f, Listed(m, key)) <==> exists a :: Has(m, key, a) && s in f(a)
  {
    if s in FlatMap(f, Listed(m, key)) {
      var a := FlatMapMember(f, Listed(m, key), s);
      assert Has(m, key, a);
    }
    forall a | Has(m, key, a) && s in f(a) ensures s in FlatMap(f, Listed(m, key)) {
      FlatMapContains(f, Listed(m, key), a, s);
    }
  }

  /* ---- the contribution of each item ---- */

  lemma SymbolStepMeans(plan: Plan, id: string, reason: Reason, score: nat, metadata: Metadata, s: Step)
    ensures s == SymbolStep(plan, Canonical(plan, id), reason, score, metadata)
            <==> ToSymbol(plan, id, reason, score, metadata, s)
  {
  }

  lemma TiersAgree(scenario: Scenario)
    ensures ConsumerTier(scenario) == FileTier(scenario)
  {
  }

  /** A new key goes between the smaller and the larger ones. */
  lemma {:induction false} InsertedBetween(front: Metadata, back: Metadata, key: string, value: string)
    requires forall i :: 0 <= i < |front| ==> front[i].0 != key && !StrLess(key, front[i].0)
    requires back == [] || StrLess(key, back[0].0)
    ensures MetaInsert(front + back, key, value) == front + [(key, value)] + back
  {
    if front == [] {
      assert front + back == back;
    } else {
      assert (front + back)[1..] == front[1..] + back;
      InsertedBetween(front[1..], back, key, value);
    }
  }

  lemma AssociationMetadataIs(a: Association, scope: Option<string>)
    ensures var base := [("detail", a.detail), ("evidence", EvidenceText(a.evidence)), ("test_path", a.testPath)];
            var owned := if a.owner.Some? then MetaInsert(base, "owner_symbol_id", a.owner.value) else base;
            (if scope.Some? then MetaInsert(owned, "scope", scope.value) else owned)
            == AssociationMetadata(a, EvidenceText(a.evidence), scope)
  {
    var front, back := [("detail", a.detail), ("evidence", EvidenceText(a.evidence))], [("test_path", a.testPath)];
    var owner := if a.owner.Some? then [("owner_symbol_id", a.owner.value)] else [];
    hide EvidenceText;
    assert "owner_symbol_id"[0] == 'o' && "scope"[0] == 's' && "test_path"[0] == 't';
    assert "detail"[0] == 'd' && "evidence"[0] == 'e';
    if a.owner.Some? {
      InsertedBetween(front, back, "owner_symbol_id", a.owner.value);
    }
    if scope.Some? {
      InsertedBetween(front + owner, back, "scope", scope.value);
    }
    assert front + back == [front[0], front[1], back[0]];
  }

  lemma TestStepsMean(inp: Inputs, policy: Policy, scope: Option<string>, a: Association, s: Step)
    ensures s in TestSteps(inp, policy, scope, a) <==> Vouches(inp, policy.includeHeuristicTests, scope, a, s)
  {
    AssociationMetadataIs(a, scope);
    hide MetaInsert;
    hide FileName;
    hide AssociationMetadata;
  }

  lemma TestListMeans(inp: Inputs, policy: Policy, scope: Option<string>, m: map<string, seq<Association>>, key: string,
                      s: Step)
    ensures s in FlatMap(TestStepsOf(inp, policy, scope), Listed(m, key))
            <==> Tested(inp, policy.includeHeuristicTests, scope, m, key, s)
  {
    hide TestSteps;
    hide Vouches;
    FlatMapListed(TestStepsOf(inp, policy, scope), m, key, s);
    forall a
      ensures s in TestStepsOf(inp, policy, scope)(a) <==> Vouches(inp, policy.includeHeuristicTests, scope, a, s)
    {
      TestStepsMean(inp, policy, scope, a, s);
    }
  }

  lemma ReferenceStepsMean(inp: Inputs, policy: Policy, id: string, r: ReverseReference, s: Step)
    ensures s in ReferenceSteps(inp, policy, id, r) <==> Refers(inp, policy.includeConsumerFiles, id, r, s)
  {
    hide IsTestPath;
    hide IsTestFile;
    TestPathsExactly(r.path);
    TiersAgree(inp.scenario);
    var metadata := [("occurrence_id", r.occurrenceId), ("path", r.path)];
    if r.owner.Some? {
      SymbolStepMeans(inp.plan, r.owner.value, References, 950, metadata, s);
    }
    hide SymbolStep;
    hide ToSymbol;
    hide FileTier;
    hide ConsumerTier;
  }

  lemma ReferenceListMeans(inp: Inputs, policy: Policy, id: string, s: Step)
    ensures s in FlatMap(ReferenceStepsOf(inp, policy, id), Listed(inp.plan.reverseReferences, id))
            <==> exists r :: Has(inp.plan.reverseReferences, id, r)
                             && Refers(inp, policy.includeConsumerFiles, id, r, s)
  {
    hide ReferenceSteps;
    hide Refers;
    FlatMapListed(ReferenceStepsOf(inp, policy, id), inp.plan.reverseReferences, id, s);
    forall r ensures s in ReferenceStepsOf(inp, policy, id)(r) <==> Refers(inp, policy.includeConsumerFiles, id, r, s) {
      ReferenceStepsMean(inp, policy, id, r, s);
    }
  }

  lemma ImporterStepsMean(inp: Inputs, policy: Policy, importer: string, s: Step)
    ensures s in ImporterSteps(inp, policy, importer) <==> ImportedFrom(inp, policy.includeConsumerFiles, importer, s)
  {
    var id := Canonical(inp.plan, importer);
    TiersAgree(inp.scenario);
    SymbolStepMeans(inp.plan, importer, Imports, 930, [], s);
    assert Folds(inp.plan, importer, id);
    hide SymbolStep;
    hide ToSymbol;
    hide FileTier;
    hide ConsumerTier;
  }

  lemma ImporterListMeans(inp: Inputs, policy: Policy, id: string, s: Step)
    ensures s in FlatMap(ImporterStepsOf(inp, policy), Listed(inp.plan.reverseImports, id))
            <==> exists i :: Has(inp.plan.reverseImports, id, i) && ImportedFrom(inp, policy.includeConsumerFiles, i, s)
  {
    hide ImporterSteps;
    hide ImportedFrom;
    FlatMapListed(ImporterStepsOf(inp, policy), inp.plan.reverseImports, id, s);
    forall i ensures s in ImporterStepsOf(inp, policy)(i) <==> ImportedFrom(inp, policy.includeConsumerFiles, i, s) {
      ImporterStepsMean(inp, policy, i, s);
    }
  }

  lemma ExporterListMeans(inp: Inputs, id: string, s: Step)
    ensures s in FlatMap(ExporterStepsOf(inp), Listed(inp.plan.reverseExports, id))
            <==> exists e :: Has(inp.plan.reverseExports, id, e) && ToSymbol(inp.plan, e, Exports, 920, [], s)
  {
    hide ToSymbol;
    hide SymbolStep;
    FlatMapListed(ExporterStepsOf(inp), inp.plan.reverseExports, id, s);
    forall e ensures s in ExporterStepsOf(inp)(e) <==> ToSymbol(inp.plan, e, Exports, 920, [], s) {
      SymbolStepMeans(inp.plan, e, Exports, 920, [], s);
    }
  }

  lemma MemberListMeans(inp: Inputs, path: string, s: Step)
    ensures s in FlatMap(MemberStepsOf(inp), Listed(inp.plan.fileToSymbols, path))
            <==> exists m :: Has(inp.plan.fileToSymbols, path, m) && ToSymbol(inp.plan, m, Contains, 900, [], s)
  {
    hide ToSymbol;
    hide SymbolStep;
    FlatMapListed(MemberStepsOf(inp), inp.plan.fileToSymbols, path, s);
    forall m ensures s in MemberStepsOf(inp)(m) <==> ToSymbol(inp.plan, m, Contains, 900, [], s) {
      SymbolStepMeans(inp.plan, m, Contains, 900, [], s);
    }
  }

  lemma DependentStepsMean(inp: Inputs, dependent: string, s: Step)
    ensures s in DependentSteps(inp, dependent) <==> DependsOnFile(inp, dependent, s)
  {
    hide IsTestPath;
    hide IsTestFile;
    hide FileName;
    TestPathsExactly(dependent);
    TiersAgree(inp.scenario);
    hide FileTier;
    hide ConsumerTier;
  }

  lemma DependentListMeans(inp: Inputs, path: string, s: Step)
    ensures s in FlatMap(DependentStepsOf(inp), Listed(inp.plan.reverseDependents, path))
            <==> exists d :: Has(inp.plan.reverseDependents, path, d) && DependsOnFile(inp, d, s)
  {
    hide DependentSteps;
    hide DependsOnFile;
    FlatMapListed(DependentStepsOf(inp), inp.plan.reverseDependents, path, s);
    forall d ensures s in DependentStepsOf(inp)(d) <==> DependsOnFile(inp, d, s) {
      DependentStepsMean(inp, d, s);
    }
  }

  /* ---- expansion of a node ---- */

  lemma SymbolTestStepsMean(inp: Inputs, policy: Policy, id: string, s: Step)
    ensures s in SymbolTestSteps(inp, policy, id) <==>
            || Tested(inp, policy.includeHeuristicTests, None, inp.plan.testsBySymbol, id, s)
            || exists name :: id in inp.plan.symbolToFile && Names(inp.plan, id, name)
                              && Tested(inp, policy.includeHeuristicTests, Some(name), inp.plan.testsByFile,
                                        inp.plan.symbolToFile[id], s)
  {
    hide FlatMap;
    TestListMeans(inp, policy, None, inp.plan.testsBySymbol, id, s);
    var name := SymbolEntity(inp.plan, id).displayName;
    assert Names(inp.plan, id, name);
    if id in inp.plan.symbolToFile {
      TestListMeans(inp, policy, Some(name), inp.plan.testsByFile, inp.plan.symbolToFile[id], s);
    }
    hide Tested;
  }

  lemma SymbolStepsMean(inp: Inputs, policy: Policy, id: string, s: Step)
    ensures s in SymbolSteps(inp, policy, id)
            <==> SymbolRelated(inp, policy.includeConsumerFiles, policy.includeHeuristicTests, id, s)
  {
    ReferenceListMeans(inp, policy, id, s);
    ImporterListMeans(inp, policy, id, s);
    ExporterListMeans(inp, id, s);
    SymbolTestStepsMean(inp, policy, id, s);
    hide FlatMap;
    hide SymbolTestSteps;
    hide Tested;
    hide Refers;
    hide ImportedFrom;
    hide ToSymbol;
    hide Has;
    assert s in OwnershipSteps(inp, id) <==>
           || (id in inp.plan.symbolToFile
               && ToFile(inp.plan.symbolToFile[id], true, Certain, DeclaredInFile, 900, [], s))
           || (id in inp.plan.packageBySymbol && ToPackage(inp.plan.packageBySymbol[id], s));
    hide OwnershipSteps;
    hide ToFile;
    hide ToPackage;
  }

  lemma FileStepsMean(inp: Inputs, policy: Policy, path: string, s: Step)
    ensures s in FileSteps(inp, policy, path) <==> FileRelated(inp, policy.includeHeuristicTests, path, s)
  {
    MemberListMeans(inp, path, s);
    DependentListMeans(inp, path, s);
    TestListMeans(inp, policy, None, inp.plan.testsByFile, path, s);
    hide FlatMap;
    hide Tested;
    hide DependsOnFile;
    hide ToSymbol;
    hide Has;
    assert s in FilePackageSteps(inp, path)
           <==> path in inp.plan.packageByFile && ToPackage(inp.plan.packageByFile[path], s);
    hide FilePackageSteps;
    hide ToPackage;
  }

  /** The steps of a node are exactly those that the enrichment maps relate to it, the ones back to the
    node itself excepted. */
  lemma ExpansionMeansRelation(inp: Inputs, policy: Policy, node: Node, s: Step)
    ensures s in ExpandNode(inp, policy, node) <==>
            && Related(inp, policy.includeConsumerFiles, policy.includeHeuristicTests, node, s)
            && s.entity.Key() != node.Key()
  {
    hide SymbolRelated;
    hide FileRelated;
    hide Entity.Key;
    hide Node.Key;
    match node
    case SymbolNode(id) =>
      var c := Canonical(inp.plan, id);
      assert Folds(inp.plan, id, c);
      SymbolStepsMean(inp, policy, c, s);
      WithoutSelfMember(SymbolSteps(inp, policy, c), node.Key(), s);
    case FileNode(path) =>
      FileStepsMean(inp, policy, path, s);
      WithoutSelfMember(FileSteps(inp, policy, path), node.Key(), s);
  }
}
