/** The steps that the enrichment maps give at a node, per change scenario.

  Each `expand` method pushes onto a list, loop by loop, and is proved against the function that
  concatenates what the items contribute; `ObeysRules` is what every step is then shown to obey. */
module Enrichment {
  import opened Ordering
  import opened ImpactModel

  datatype Membership = Membership(name: string, root: string)

  datatype ReverseReference = ReverseReference(occurrenceId: string, path: string, owner: Option<string>)

  datatype Evidence = ImportsFile | ReferencesSymbol | PathHeuristic

  datatype Association = Association(testPath: string, evidence: Evidence, detail: string, owner: Option<string>)

  datatype Plan = Plan(
    displayNames: map<string, string>,
    canonical: map<string, string>,
    reverseReferences: map<string, seq<ReverseReference>>,
    reverseImports: map<string, seq<string>>,
    reverseExports: map<string, seq<string>>,
    reverseDependents: map<string, seq<string>>,
    symbolToFile: map<string, string>,
    fileToSymbols: map<string, seq<string>>,
    packageByFile: map<string, Membership>,
    packageBySymbol: map<string, Membership>,
    testsByFile: map<string, seq<Association>>,
    testsBySymbol: map<string, seq<Association>>)

  datatype Target = SymbolTarget(canonicalId: string, path: string) | FileTarget(path: string)

  datatype Inputs = Inputs(
    plan: Plan,
    target: Target,
    scenario: Scenario,
    testBonus: map<string, nat>,
    includeReasonPaths: bool)

  /* ---- scenario policy ---- */

  datatype Params = Params(
    limit: nat,
    includeTransitive: bool,
    maxTransitiveDepth: Option<nat>,
    maxNodes: Option<nat>,
    maxEdges: Option<nat>,
    maxCandidates: Option<nat>)

  function Capped(value: nat, cap: Option<nat>): nat {
    if cap.Some? && cap.value < value then cap.value else value
  }

  function BasePolicy(scenario: Scenario): Policy {
    match scenario
    case ModifyBehavior => Policy(false, true, 3, 96, 256, 192)
    case SignatureChange => Policy(true, true, 4, 160, 512, 320)
    case Rename => Policy(true, false, 3, 128, 384, 256)
    case Delete => Policy(true, true, 4, 192, 640, 384)
  }

  function ScenarioPolicy(scenario: Scenario, params: Params): Policy {
    var base := BasePolicy(scenario);
    var depth := if params.includeTransitive then base.maxDepth else Capped(base.maxDepth, Some(1));
    base.(maxDepth := Capped(depth, params.maxTransitiveDepth),
          maxNodes := Capped(base.maxNodes, params.maxNodes),
          maxEdges := Capped(base.maxEdges, params.maxEdges),
          maxCandidates := Capped(base.maxCandidates, params.maxCandidates))
  }

  /* ---- text tests on paths ---- */

  function Lowered(c: char): char {
    if 'A' <= c <= 'Z' then (c as int + 32) as char else c
  }

  function ToAsciiLowercase(s: string): string {
    seq(|s|, i requires 0 <= i < |s| => Lowered(s[i]))
  }

  predicate OccursAt(s: string, part: string, i: nat) {
    i + |part| <= |s| && s[i..i + |part|] == part
  }

  predicate HasPart(s: string, part: string) {
    exists i :: 0 <= i <= |s| && OccursAt(s, part, i)
  }

  predicate EndsWith(s: string, part: string) {
    |part| <= |s| && s[|s| - |part|..] == part
  }

  predicate IsTestPath(path: string) {
    var p := ToAsciiLowercase(path);
    || HasPart(p, "/__tests__/") || HasPart(p, "/tests/")
    || EndsWith(p, ".test.ts") || EndsWith(p, ".test.tsx") || EndsWith(p, ".test.js") || EndsWith(p, ".test.jsx")
    || EndsWith(p, ".spec.ts") || EndsWith(p, ".spec.tsx") || EndsWith(p, ".spec.js") || EndsWith(p, ".spec.jsx")
  }

  /** The last component of a path. */
  function FileName(path: string): string {
    if path == "" then "" else if path[|path| - 1] == '/' then "" else FileName(path[..|path| - 1]) + [path[|path| - 1]]
  }

  /* ---- entities ---- */

  function Canonical(plan: Plan, id: string): string {
    if id in plan.canonical then plan.canonical[id] else id
  }

  function SymbolEntity(plan: Plan, id: string): Entity {
    Symbol(id, if id in plan.symbolToFile then plan.symbolToFile[id] else "",
           if id in plan.displayNames then plan.displayNames[id] else id)
  }

  function TestEntity(plan: Plan, path: string, owner: Option<string>): Entity {
    var name := if owner.Some? && owner.value in plan.displayNames then plan.displayNames[owner.value] + " test"
                else if FileName(path) == "" then path else FileName(path);
    Test(path, name, owner)
  }

  function SeedNode(inp: Inputs): Node {
    match inp.target
    case SymbolTarget(id, _) => SymbolNode(id)
    case FileTarget(path) => FileNode(path)
  }

  function SeedEntity(inp: Inputs): Entity {
    match inp.target
    case SymbolTarget(id, _) => SymbolEntity(inp.plan, id)
    case FileTarget(path) => File(path)
  }

  function Listed<T>(m: map<string, seq<T>>, key: string): seq<T> {
    if key in m then m[key] else []
  }

  function TestBonus(inp: Inputs, path: string): nat {
    if path in inp.testBonus then inp.testBonus[path] else 0
  }

  /** Certainty of a file that consumes a symbol or a file. */
  function ConsumerTier(scenario: Scenario): Tier {
    if scenario == ModifyBehavior then Likely else Certain
  }

  function HeuristicTestTier(scenario: Scenario): Tier {
    if scenario == SignatureChange then Likely else Possible
  }

  /* ---- steps contributed by one item ---- */

  function EvidenceText(e: Evidence): string {
    match e
    case ImportsFile => "importsfile"
    case ReferencesSymbol => "referencessymbol"
    case PathHeuristic => "pathheuristic"
  }

  function TestSteps(inp: Inputs, policy: Policy, scope: Option<string>, a: Association): seq<Step> {
    if a.evidence == PathHeuristic && !policy.includeHeuristicTests then []
    else
      var (tier, reason, score) :=
        match a.evidence
        case ImportsFile => (Certain, TestReference, 880)
        case ReferencesSymbol => (Certain, TestReference, 890)
        case PathHeuristic => (HeuristicTestTier(inp.scenario), TestAffinity, 420);
      var base := [("detail", a.detail), ("evidence", EvidenceText(a.evidence)), ("test_path", a.testPath)];
      var owned := if a.owner.Some? then MetaInsert(base, "owner_symbol_id", a.owner.value) else base;
      var metadata := if scope.Some? then MetaInsert(owned, "scope", scope.value) else owned;
      var entity := TestEntity(inp.plan, a.testPath, a.owner);
      [Step(entity, None, tier, reason, score + TestBonus(inp, a.testPath), metadata)]
  }

  function FileStep(path: string, tier: Tier, reason: Reason, score: nat, metadata: Metadata): Step {
    Step(File(path), Some(FileNode(path)), tier, reason, score, metadata)
  }

  function SymbolStep(plan: Plan, id: string, reason: Reason, score: nat, metadata: Metadata): Step {
    Step(SymbolEntity(plan, id), Some(SymbolNode(id)), Certain, reason, score, metadata)
  }

  function PackageStep(m: Membership): Step {
    Step(Package(m.name, m.root), None, Likely, PackageMember, 620, [("package_root", m.root)])
  }

  function ReferenceSteps(inp: Inputs, policy: Policy, id: string, r: ReverseReference): seq<Step> {
    var metadata := [("occurrence_id", r.occurrenceId), ("path", r.path)];
    (if r.owner.Some? && Canonical(inp.plan, r.owner.value) != id
     then [SymbolStep(inp.plan, Canonical(inp.plan, r.owner.value), References, 950, metadata)] else [])
    + (if policy.includeConsumerFiles || r.owner.None?
       then [Step(File(r.path), if IsTestPath(r.path) then None else Some(FileNode(r.path)),
                  ConsumerTier(inp.scenario), ReferencedByFile, 760, metadata)] else [])
  }

  function ImporterSteps(inp: Inputs, policy: Policy, importer: string): seq<Step> {
    var id := Canonical(inp.plan, importer);
    [SymbolStep(inp.plan, id, Imports, 930, [])]
    + (if policy.includeConsumerFiles && id in inp.plan.symbolToFile
       then [FileStep(inp.plan.symbolToFile[id], ConsumerTier(inp.scenario), ImportedByFile, 770,
                      [("path", inp.plan.symbolToFile[id])])]
       else [])
  }

  function ExporterSteps(inp: Inputs, exporter: string): seq<Step> {
    [SymbolStep(inp.plan, Canonical(inp.plan, exporter), Exports, 920, [])]
  }

  function MemberSteps(inp: Inputs, symbol: string): seq<Step> {
    [SymbolStep(inp.plan, Canonical(inp.plan, symbol), Contains, 900, [])]
  }

  function DependentSteps(inp: Inputs, path: string): seq<Step> {
    if IsTestPath(path)
    then [Step(TestEntity(inp.plan, path, None), None, Certain, TestReference, 880 + TestBonus(inp, path),
               [("path", path)])]
    else [FileStep(path, ConsumerTier(inp.scenario), ImportedByFile, 860, [("path", path)])]
  }

  /* ---- concatenation and filtering ---- */

  function FlatMap<A, B>(f: A -> seq<B>, items: seq<A>): seq<B> {
    if items == [] then [] else FlatMap(f, items[..|items| - 1]) + f(items[|items| - 1])
  }

  lemma {:induction false} FlatMapMember<A, B>(f: A -> seq<B>, items: seq<A>, b: B) returns (a: A)
    requires b in FlatMap(f, items)
    ensures a in items && b in f(a)
  {
    var front, last := items[..|items| - 1], items[|items| - 1];
    if b in f(last) {
      a := last;
    } else {
      a := FlatMapMember(f, front, b);
    }
  }

  /** Steps back to the entity being expanded are dropped. */
  function WithoutSelf(steps: seq<Step>, key: string): seq<Step> {
    if steps == [] then []
    else WithoutSelf(steps[..|steps| - 1], key)
         + if steps[|steps| - 1].entity.Key() != key then [steps[|steps| - 1]] else []
  }

  lemma {:induction false} WithoutSelfMember(steps: seq<Step>, key: string, s: Step)
    ensures s in WithoutSelf(steps, key) <==> s in steps && s.entity.Key() != key
  {
    if steps != [] {
      WithoutSelfMember(steps[..|steps| - 1], key, s);
      assert steps == steps[..|steps| - 1] + [steps[|steps| - 1]];
    }
  }

  /* ---- expansion of a node ---- */

  function TestStepsOf(inp: Inputs, policy: Policy, scope: Option<string>): Association -> seq<Step> {
    (a: Association) => TestSteps(inp, policy, scope, a)
  }

  function ReferenceStepsOf(inp: Inputs, policy: Policy, id: string): ReverseReference -> seq<Step> {
    (r: ReverseReference) => ReferenceSteps(inp, policy, id, r)
  }

  function ImporterStepsOf(inp: Inputs, policy: Policy): string -> seq<Step> {
    (s: string) => ImporterSteps(inp, policy, s)
  }

  function ExporterStepsOf(inp: Inputs): string -> seq<Step> {
    (s: string) => ExporterSteps(inp, s)
  }

  function MemberStepsOf(inp: Inputs): string -> seq<Step> {
    (s: string) => MemberSteps(inp, s)
  }

  function DependentStepsOf(inp: Inputs): string -> seq<Step> {
    (s: string) => DependentSteps(inp, s)
  }

  function OwnershipSteps(inp: Inputs, id: string): seq<Step> {
    (if id in inp.plan.symbolToFile
     then [FileStep(inp.plan.symbolToFile[id], Certain, DeclaredInFile, 900, [])]
     else [])
    + (if id in inp.plan.packageBySymbol then [PackageStep(inp.plan.packageBySymbol[id])] else [])
  }

  function SymbolTestSteps(inp: Inputs, policy: Policy, id: string): seq<Step> {
    FlatMap(TestStepsOf(inp, policy, None), Listed(inp.plan.testsBySymbol, id))
    + (if id in inp.plan.symbolToFile
       then FlatMap(TestStepsOf(inp, policy, Some(SymbolEntity(inp.plan, id).displayName)),
                    Listed(inp.plan.testsByFile, inp.plan.symbolToFile[id]))
       else [])
  }

  function SymbolSteps(inp: Inputs, policy: Policy, id: string): seq<Step> {
    OwnershipSteps(inp, id)
    + FlatMap(ReferenceStepsOf(inp, policy, id), Listed(inp.plan.reverseReferences, id))
    + FlatMap(ImporterStepsOf(inp, policy), Listed(inp.plan.reverseImports, id))
    + FlatMap(ExporterStepsOf(inp), Listed(inp.plan.reverseExports, id))
    + SymbolTestSteps(inp, policy, id)
  }

  function FilePackageSteps(inp: Inputs, path: string): seq<Step> {
    if path in inp.plan.packageByFile then [PackageStep(inp.plan.packageByFile[path])] else []
  }

  function FileSteps(inp: Inputs, policy: Policy, path: string): seq<Step> {
    FlatMap(MemberStepsOf(inp), Listed(inp.plan.fileToSymbols, path))
    + FilePackageSteps(inp, path)
    + FlatMap(DependentStepsOf(inp), Listed(inp.plan.reverseDependents, path))
    + FlatMap(TestStepsOf(inp, policy, None), Listed(inp.plan.testsByFile, path))
  }

  function ExpandNode(inp: Inputs, policy: Policy, node: Node): seq<Step> {
    match node
    case SymbolNode(id) => WithoutSelf(SymbolSteps(inp, policy, Canonical(inp.plan, id)), node.Key())
    case FileNode(path) => WithoutSelf(FileSteps(inp, policy, path), node.Key())
  }

  /* ---- the same, as the loops of the engine ---- */

  lemma FlatMapNext<A, B>(f: A -> seq<B>, items: seq<A>, i: nat)
    requires i < |items|
    ensures FlatMap(f, items[..i + 1]) == FlatMap(f, items[..i]) + f(items[i])
    ensures items[..|items|] == items
  {
    assert items[..i + 1][..i] == items[..i];
  }

  /** One `for` loop of an `expand` method: pushes what each item contributes. */
  method PushSteps<A>(f: A -> seq<Step>, items: seq<A>, before: seq<Step>) returns (steps: seq<Step>)
    ensures steps == before + FlatMap(f, items)
  {
    steps := before;
    for i := 0 to |items|
      invariant steps == before + FlatMap(f, items[..i])
    {
      FlatMapNext(f, items, i);
      steps := steps + f(items[i]);
    }
    assert items[..|items|] == items;
  }

  method FilterSelfSteps(steps: seq<Step>, key: string) returns (kept: seq<Step>)
    ensures kept == WithoutSelf(steps, key)
  {
    kept := [];
    for i := 0 to |steps|
      invariant kept == WithoutSelf(steps[..i], key)
    {
      assert steps[..i + 1][..i] == steps[..i];
      if steps[i].entity.Key() != key {
        kept := kept + [steps[i]];
      }
    }
    assert steps[..|steps|] == steps;
  }

  method ExpandSymbolNode(inp: Inputs, policy: Policy, symbolId: string, current: Entity) returns (result: seq<Step>)
    ensures result == WithoutSelf(SymbolSteps(inp, policy, Canonical(inp.plan, symbolId)), current.Key())
  {
    var id := Canonical(inp.plan, symbolId);
    var steps: seq<Step> := [];
    if id in inp.plan.symbolToFile {
      steps := steps + [FileStep(inp.plan.symbolToFile[id], Certain, DeclaredInFile, 900, [])];
    }
    if id in inp.plan.packageBySymbol {
      steps := steps + [PackageStep(inp.plan.packageBySymbol[id])];
    }
    assert steps == OwnershipSteps(inp, id);
    hide OwnershipSteps;
    hide FlatMap;
    hide WithoutSelf;
    steps := PushSteps(ReferenceStepsOf(inp, policy, id), Listed(inp.plan.reverseReferences, id), steps);
    steps := PushSteps(ImporterStepsOf(inp, policy), Listed(inp.plan.reverseImports, id), steps);
    steps := PushSteps(ExporterStepsOf(inp), Listed(inp.plan.reverseExports, id), steps);
    var tests := AddTestStepsForSymbol(inp, policy, id);
    result := FilterSelfSteps(steps + tests, current.Key());
  }

  method AddTestStepsForSymbol(inp: Inputs, policy: Policy, id: string) returns (steps: seq<Step>)
    ensures steps == SymbolTestSteps(inp, policy, id)
  {
    hide FlatMap;
    steps := PushSteps(TestStepsOf(inp, policy, None), Listed(inp.plan.testsBySymbol, id), []);
    assert steps == FlatMap(TestStepsOf(inp, policy, None), Listed(inp.plan.testsBySymbol, id));
    if id in inp.plan.symbolToFile {
      var scope := Some(SymbolEntity(inp.plan, id).displayName);
      var tests := Listed(inp.plan.testsByFile, inp.plan.symbolToFile[id]);
      steps := PushSteps(TestStepsOf(inp, policy, scope), tests, steps);
    }
  }

  method ExpandFileNode(inp: Inputs, policy: Policy, path: string, current: Entity) returns (result: seq<Step>)
    ensures result == WithoutSelf(FileSteps(inp, policy, path), current.Key())
  {
    hide FlatMap;
    hide WithoutSelf;
    var steps := PushSteps(MemberStepsOf(inp), Listed(inp.plan.fileToSymbols, path), []);
    assert steps == FlatMap(MemberStepsOf(inp), Listed(inp.plan.fileToSymbols, path));
    if path in inp.plan.packageByFile {
      steps := steps + [PackageStep(inp.plan.packageByFile[path])];
    }
    steps := PushSteps(DependentStepsOf(inp), Listed(inp.plan.reverseDependents, path), steps);
    steps := PushSteps(TestStepsOf(inp, policy, None), Listed(inp.plan.testsByFile, path), steps);
    assert steps == FileSteps(inp, policy, path);
    result := FilterSelfSteps(steps, current.Key());
  }

  /** Expansion depends on the node alone: the frame's entity has the node's key. */
  method Expand(inp: Inputs, policy: Policy, node: Node, current: Entity) returns (result: seq<Step>)
    requires current.Key() == node.Key()
    ensures result == ExpandNode(inp, policy, node)
  {
    match node
    case SymbolNode(id) => result := ExpandSymbolNode(inp, policy, id, current);
    case FileNode(path) => result := ExpandFileNode(inp, policy, path, current);
  }

  /* ---- rules every step obeys ---- */

  predicate ObeysRules(scenario: Scenario, heuristics: bool, s: Step) {
    && s.reason != Seed && s.reason != Defines && (s.reason == TestAffinity ==> s.entity.Test?)
    && (s.next.Some? ==> s.next.value.Key() == s.entity.Key() && (s.entity.Symbol? || s.entity.File?))
    && (s.entity.Symbol? ==> s.tier == Certain && s.next.Some?)
    && (s.entity.File? ==> s.tier == (if s.reason == DeclaredInFile then Certain else ConsumerTier(scenario)))
    && (s.entity.Package? ==> s.tier == Likely && s.reason == PackageMember)
    && (s.entity.Test? ==> (s.reason == TestReference && s.tier == Certain)
                           || (s.reason == TestAffinity && s.tier == HeuristicTestTier(scenario) && heuristics))
  }

  lemma StepsObeyRules(inp: Inputs, policy: Policy, node: Node, s: Step)
    requires s in ExpandNode(inp, policy, node)
    ensures ObeysRules(inp.scenario, policy.includeHeuristicTests, s) && s.entity.Key() != node.Key()
  {
    match node
    case SymbolNode(id) =>
      WithoutSelfMember(SymbolSteps(inp, policy, Canonical(inp.plan, id)), node.Key(), s);
      SymbolStepsObeyRules(inp, policy, Canonical(inp.plan, id), s);
    case FileNode(path) =>
      WithoutSelfMember(FileSteps(inp, policy, path), node.Key(), s);
      FileStepsObeyRules(inp, policy, path, s);
  }

  /** All steps that the items of a list contribute obey the rules. */
  ghost predicate AllObey<A(!new)>(scenario: Scenario, heuristics: bool, f: A -> seq<Step>) {
    forall a, s :: s in f(a) ==> ObeysRules(scenario, heuristics, s)
  }

  lemma FlatMapObeys<A(!new)>(scenario: Scenario, heuristics: bool, f: A -> seq<Step>, items: seq<A>, s: Step)
    requires AllObey(scenario, heuristics, f) && s in FlatMap(f, items)
    ensures ObeysRules(scenario, heuristics, s)
  {
    var a := FlatMapMember(f, items, s);
  }

  lemma TestStepsObey(inp: Inputs, policy: Policy, scope: Option<string>)
    ensures AllObey(inp.scenario, policy.includeHeuristicTests, TestStepsOf(inp, policy, scope))
  {
  }

  lemma ReferenceStepsObey(inp: Inputs, policy: Policy, id: string)
    ensures AllObey(inp.scenario, policy.includeHeuristicTests, ReferenceStepsOf(inp, policy, id))
  {
  }

  lemma ImporterStepsObey(inp: Inputs, policy: Policy)
    ensures AllObey(inp.scenario, policy.includeHeuristicTests, ImporterStepsOf(inp, policy))
  {
  }

  lemma LinkedSymbolStepsObey(inp: Inputs, policy: Policy)
    ensures AllObey(inp.scenario, policy.includeHeuristicTests, ExporterStepsOf(inp))
    ensures AllObey(inp.scenario, policy.includeHeuristicTests, MemberStepsOf(inp))
  {
  }

  lemma DependentStepsObey(inp: Inputs, policy: Policy)
    ensures AllObey(inp.scenario, policy.includeHeuristicTests, DependentStepsOf(inp))
  {
    hide IsTestPath;
  }

  lemma PackageStepObeys(scenario: Scenario, heuristics: bool, m: Membership)
    ensures ObeysRules(scenario, heuristics, PackageStep(m))
  {
  }

  lemma OwnershipStepsObey(inp: Inputs, policy: Policy, id: string, s: Step)
    requires s in OwnershipSteps(inp, id)
    ensures ObeysRules(inp.scenario, policy.includeHeuristicTests, s)
  {
  }

  lemma SymbolStepsObeyRules(inp: Inputs, policy: Policy, id: string, s: Step)
    requires s in SymbolSteps(inp, policy, id)
    ensures ObeysRules(inp.scenario, policy.includeHeuristicTests, s)
  {
    hide ObeysRules;
    hide OwnershipSteps;
    hide SymbolTestSteps;
    var scenario, heuristics := inp.scenario, policy.includeHeuristicTests;
    ReferenceStepsObey(inp, policy, id);
    ImporterStepsObey(inp, policy);
    LinkedSymbolStepsObey(inp, policy);
    hide AllObey;
    if s in OwnershipSteps(inp, id) {
      OwnershipStepsObey(inp, policy, id, s);
    } else if s in FlatMap(ReferenceStepsOf(inp, policy, id), Listed(inp.plan.reverseReferences, id)) {
      FlatMapObeys(scenario, heuristics, ReferenceStepsOf(inp, policy, id), Listed(inp.plan.reverseReferences, id), s);
    } else if s in FlatMap(ImporterStepsOf(inp, policy), Listed(inp.plan.reverseImports, id)) {
      FlatMapObeys(scenario, heuristics, ImporterStepsOf(inp, policy), Listed(inp.plan.reverseImports, id), s);
    } else if s in FlatMap(ExporterStepsOf(inp), Listed(inp.plan.reverseExports, id)) {
      FlatMapObeys(scenario, heuristics, ExporterStepsOf(inp), Listed(inp.plan.reverseExports, id), s);
    } else {
      SymbolTestStepsObeyRules(inp, policy, id, s);
    }
  }

  lemma SymbolTestStepsObeyRules(inp: Inputs, policy: Policy, id: string, s: Step)
    requires s in SymbolTestSteps(inp, policy, id)
    ensures ObeysRules(inp.scenario, policy.includeHeuristicTests, s)
  {
    var scenario, heuristics := inp.scenario, policy.includeHeuristicTests;
    TestStepsObey(inp, policy, None);
    if s in FlatMap(TestStepsOf(inp, policy, None), Listed(inp.plan.testsBySymbol, id)) {
      FlatMapObeys(scenario, heuristics, TestStepsOf(inp, policy, None), Listed(inp.plan.testsBySymbol, id), s);
    } else {
      var scope := Some(SymbolEntity(inp.plan, id).displayName);
      TestStepsObey(inp, policy, scope);
      var tests := Listed(inp.plan.testsByFile, inp.plan.symbolToFile[id]);
      FlatMapObeys(scenario, heuristics, TestStepsOf(inp, policy, scope), tests, s);
    }
  }

  lemma FileStepsObeyRules(inp: Inputs, policy: Policy, path: string, s: Step)
    requires s in FileSteps(inp, policy, path)
    ensures ObeysRules(inp.scenario, policy.includeHeuristicTests, s)
  {
    var scenario, heuristics := inp.scenario, policy.includeHeuristicTests;
    if path in inp.plan.packageByFile {
      PackageStepObeys(scenario, heuristics, inp.plan.packageByFile[path]);
    }
    TestStepsObey(inp, policy, None);
    LinkedSymbolStepsObey(inp, policy);
    DependentStepsObey(inp, policy);
    hide ObeysRules;
    hide AllObey;
    if s in FlatMap(MemberStepsOf(inp), Listed(inp.plan.fileToSymbols, path)) {
      FlatMapObeys(scenario, heuristics, MemberStepsOf(inp), Listed(inp.plan.fileToSymbols, path), s);
    } else if s in FlatMap(DependentStepsOf(inp), Listed(inp.plan.reverseDependents, path)) {
      FlatMapObeys(scenario, heuristics, DependentStepsOf(inp), Listed(inp.plan.reverseDependents, path), s);
    } else if s in FlatMap(TestStepsOf(inp, policy, None), Listed(inp.plan.testsByFile, path)) {
      FlatMapObeys(scenario, heuristics, TestStepsOf(inp, policy, None), Listed(inp.plan.testsByFile, path), s);
    }
  }
}
