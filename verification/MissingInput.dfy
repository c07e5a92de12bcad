/** A small program on which the engine misses a file within its depth cap under ModifyBehavior. */
module MissingInput {
  import opened Ordering
  import opened ImpactModel
  import opened Enrichment
  import opened StepOrder
  import opened Traversal
  import opened Engine
  import opened Detours

  /** The enrichment of four files: `a.ts` exports function `a`; `b.ts` imports it by name (binding `b`),
    calls it in function `f`, and calls it once more at top level; `c.ts` imports all of `b.ts`, and
    `e.ts` all of `c.ts` (bindings `i` and `j`).  Each file has a module symbol: `m`, `n`, `o`, `p`. */
  function MissingPlan(): Plan {
    Plan(map["a" := "a", "b" := "a", "f" := "f", "i" := "b", "j" := "c",
             "m" := "a.ts", "n" := "b.ts", "o" := "c.ts", "p" := "e.ts"],
         map["a" := "a", "b" := "a", "f" := "f", "i" := "i", "j" := "j",
             "m" := "m", "n" := "n", "o" := "o", "p" := "p"],
         map["a" := [ReverseReference("1", "b.ts", Some("f")), ReverseReference("2", "b.ts", None)]],
         map["a" := ["b"]],
         map[],
         map["a.ts" := ["b.ts"], "b.ts" := ["c.ts"], "c.ts" := ["e.ts"]],
         map["a" := "a.ts", "m" := "a.ts", "b" := "b.ts", "f" := "b.ts", "n" := "b.ts",
             "i" := "c.ts", "o" := "c.ts", "j" := "e.ts", "p" := "e.ts"],
         map["a.ts" := ["a", "m"], "b.ts" := ["b", "f", "n"], "c.ts" := ["i", "o"], "e.ts" := ["j", "p"]],
         map[], map[], map[], map[])
  }

  function MissingInputs(): Inputs {
    Inputs(MissingPlan(), SymbolTarget("a", "a.ts"), ModifyBehavior, map[], true)
  }

  function MissingParams(cap: nat): Params {
    Params(20, true, Some(cap), None, None, None)
  }

  function ToOwner(path: string): Step { FileStep(path, Certain, DeclaredInFile, 900, []) }

  function ToMember(id: string): Step { SymbolStep(MissingPlan(), id, Contains, 900, []) }

  function ToDependent(path: string): Step { FileStep(path, Likely, ImportedByFile, 860, [("path", path)]) }

  function ToCaller(): Step {
    SymbolStep(MissingPlan(), "f", References, 950, [("occurrence_id", "1"), ("path", "b.ts")])
  }

  function ToCallingFile(): Step {
    FileStep("b.ts", Likely, ReferencedByFile, 760, [("occurrence_id", "2"), ("path", "b.ts")])
  }

  /** What expanding each node gives, before sorting. */
  function StepsAt(node: Node): seq<Step> {
    match node
    case SymbolNode(id) =>
      if id == "a" then [ToOwner("a.ts"), ToCaller(), ToCallingFile()]
      else if id == "f" then [ToOwner("b.ts")]
      else [ToOwner("a.ts")]
    case FileNode(path) => MembersAt(path) + [ToDependent(DependentOn(path))]
  }

  function MembersAt(path: string): seq<Step> {
    if path == "a.ts" then [ToMember("a"), ToMember("m")]
    else if path == "b.ts" then [ToMember("a"), ToMember("f"), ToMember("n")]
    else [ToMember("i"), ToMember("o")]
  }

  function DependentOn(path: string): string {
    if path == "a.ts" then "b.ts" else if path == "b.ts" then "c.ts" else "e.ts"
  }

  lemma ShortPathsAreNoTests(path: string)
    requires |path| == 4
    ensures !IsTestPath(path)
  {
  }

  /** Items that contribute one step each. */
  lemma {:induction false} FlatMapSingles<A>(f: A -> seq<Step>, items: seq<A>, steps: seq<Step>)
    requires |items| == |steps| && forall i :: 0 <= i < |items| ==> f(items[i]) == [steps[i]]
    ensures FlatMap(f, items) == steps
  {
    if items != [] {
      FlatMapSingles(f, items[..|items| - 1], steps[..|items| - 1]);
    }
  }

  lemma {:induction false} NoneIsSelf(steps: seq<Step>, key: string)
    requires forall i :: 0 <= i < |steps| ==> steps[i].entity.Key() != key
    ensures WithoutSelf(steps, key) == steps
  {
    hide Entity.Key;
    if steps != [] {
      NoneIsSelf(steps[..|steps| - 1], key);
    }
  }

  lemma ReferencesToTarget(policy: Policy)
    requires !policy.includeConsumerFiles
    ensures FlatMap(ReferenceStepsOf(MissingInputs(), policy, "a"), Listed(MissingPlan().reverseReferences, "a"))
            == [ToCaller(), ToCallingFile()]
  {
    ShortPathsAreNoTests("b.ts");
    hide IsTestPath;
    hide FlatMap;
    hide SymbolStep;
    var refs := [ReverseReference("1", "b.ts", Some("f")), ReverseReference("2", "b.ts", None)];
    assert Canonical(MissingPlan(), "f") == "f";
    assert MissingPlan().reverseReferences["a"] == refs;
    FlatMapSingles(ReferenceStepsOf(MissingInputs(), policy, "a"), refs, [ToCaller(), ToCallingFile()]);
  }

  function BackToTarget(): Step { SymbolStep(MissingPlan(), "a", Imports, 930, []) }

  lemma ImportersOfTarget(policy: Policy)
    requires !policy.includeConsumerFiles
    ensures FlatMap(ImporterStepsOf(MissingInputs(), policy), Listed(MissingPlan().reverseImports, "a"))
            == [BackToTarget()]
  {
    hide SymbolStep;
    assert Canonical(MissingPlan(), "b") == "a";
    FlatMapSingles(ImporterStepsOf(MissingInputs(), policy), ["b"], [BackToTarget()]);
  }

  lemma NoTests(policy: Policy, id: string)
    ensures SymbolTestSteps(MissingInputs(), policy, id) == []
  {
  }

  lemma OwnerOf(id: string, path: string)
    requires (id, path) in {("a", "a.ts"), ("m", "a.ts"), ("f", "b.ts")}
    ensures OwnershipSteps(MissingInputs(), id) == [ToOwner(path)]
    ensures Canonical(MissingPlan(), id) == id && Listed(MissingPlan().reverseExports, id) == []
    ensures id != "a" ==>
              Listed(MissingPlan().reverseReferences, id) == [] && Listed(MissingPlan().reverseImports, id) == []
  {
  }

  lemma LastIsSelf(steps: seq<Step>, self: Step, key: string)
    requires self.entity.Key() == key && forall i :: 0 <= i < |steps| ==> steps[i].entity.Key() != key
    ensures WithoutSelf(steps + [self], key) == steps
  {
    hide Entity.Key;
    NoneIsSelf(steps, key);
    assert (steps + [self])[..|steps|] == steps;
  }

  lemma JoinSymbolSteps(inp: Inputs, policy: Policy, id: string, references: seq<Step>, importers: seq<Step>)
    requires FlatMap(ReferenceStepsOf(inp, policy, id), Listed(inp.plan.reverseReferences, id)) == references
    requires FlatMap(ImporterStepsOf(inp, policy), Listed(inp.plan.reverseImports, id)) == importers
    requires Listed(inp.plan.reverseExports, id) == [] && SymbolTestSteps(inp, policy, id) == []
    ensures SymbolSteps(inp, policy, id) == OwnershipSteps(inp, id) + references + importers
  {
  }

  lemma RawTargetSteps(policy: Policy)
    requires !policy.includeConsumerFiles
    ensures SymbolSteps(MissingInputs(), policy, "a") == StepsAt(SymbolNode("a")) + [BackToTarget()]
  {
    hide SymbolSteps;
    hide FlatMap;
    hide OwnershipSteps;
    hide MissingPlan;
    hide ToOwner;
    hide ToCaller;
    hide ToCallingFile;
    hide BackToTarget;
    OwnerOf("a", "a.ts");
    ReferencesToTarget(policy);
    ImportersOfTarget(policy);
    NoTests(policy, "a");
    JoinSymbolSteps(MissingInputs(), policy, "a", [ToCaller(), ToCallingFile()], [BackToTarget()]);
  }

  lemma ExpandTarget(policy: Policy)
    requires !policy.includeConsumerFiles
    ensures ExpandNode(MissingInputs(), policy, SymbolNode("a")) == StepsAt(SymbolNode("a"))
  {
    OwnerOf("a", "a.ts");
    RawTargetSteps(policy);
    TargetStepsLeave();
    assert BackToTarget().entity.Key() == SymbolNode("a").Key();
    hide MissingPlan;
    hide SymbolSteps;
    hide Entity.Key;
    hide Node.Key;
    hide StepsAt;
    LastIsSelf(StepsAt(SymbolNode("a")), BackToTarget(), SymbolNode("a").Key());
  }

  /** No step listed for these nodes leads back to its own node. */
  lemma TargetStepsLeave()
    ensures |StepsAt(SymbolNode("a"))| == 3
    ensures forall i :: 0 <= i < 3 ==> StepsAt(SymbolNode("a"))[i].entity.Key() != SymbolNode("a").Key()
  {
    KeysDiffer();
    assert ToOwner("a.ts").entity.Key() == FileNode("a.ts").Key();
    assert ToCaller().entity.Key() == SymbolNode("f").Key();
    assert ToCallingFile().entity.Key() == FileNode("b.ts").Key();
  }

  lemma ExpandOwned(policy: Policy, id: string)
    requires id in {"f", "m"}
    ensures ExpandNode(MissingInputs(), policy, SymbolNode(id)) == StepsAt(SymbolNode(id))
  {
    var path := if id == "f" then "b.ts" else "a.ts";
    OwnerOf(id, path);
    NoTests(policy, id);
    KeysDiffer();
    assert ToOwner(path).entity.Key() == FileNode(path).Key() != SymbolNode(id).Key();
    hide MissingPlan;
    hide SymbolSteps;
    hide OwnershipSteps;
    hide Entity.Key;
    JoinSymbolSteps(MissingInputs(), policy, id, [], []);
    NoneIsSelf([ToOwner(path)], SymbolNode(id).Key());
  }

  /** The declared symbols of each file. */
  function Declared(path: string): seq<string> {
    if path == "a.ts" then ["a", "m"] else if path == "b.ts" then ["b", "f", "n"] else ["i", "o"]
  }

  lemma DeclaredIn(path: string)
    requires path in {"a.ts", "b.ts", "c.ts"}
    ensures Listed(MissingPlan().fileToSymbols, path) == Declared(path)
  {
  }

  /** One step to the canonical form of each symbol. */
  lemma MembersAreCanonical(ids: seq<string>, canonical: seq<string>)
    requires |ids| == |canonical| && forall i :: 0 <= i < |ids| ==> Canonical(MissingPlan(), ids[i]) == canonical[i]
    ensures FlatMap(MemberStepsOf(MissingInputs()), ids)
            == seq(|ids|, i requires 0 <= i < |ids| => ToMember(canonical[i]))
  {
    hide MissingPlan;
    hide SymbolStep;
    hide Canonical;
    FlatMapSingles(MemberStepsOf(MissingInputs()), ids,
                   seq(|ids|, i requires 0 <= i < |ids| => ToMember(canonical[i])));
  }

  lemma MembersOf(path: string)
    requires path in {"a.ts", "b.ts", "c.ts"}
    ensures FlatMap(MemberStepsOf(MissingInputs()), Listed(MissingPlan().fileToSymbols, path)) == MembersAt(path)
  {
    DeclaredIn(path);
    CanonicalMembers();
    hide MissingPlan;
    hide ToMember;
    hide FlatMap;
    hide Canonical;
    hide MemberStepsOf;
    if path == "b.ts" {
      MembersAreCanonical(["b", "f", "n"], ["a", "f", "n"]);
    } else if path == "a.ts" {
      MembersAreCanonical(["a", "m"], ["a", "m"]);
    } else {
      MembersAreCanonical(["i", "o"], ["i", "o"]);
    }
  }

  lemma CanonicalMembers()
    ensures Canonical(MissingPlan(), "b") == "a"
    ensures Canonical(MissingPlan(), "a") == "a" && Canonical(MissingPlan(), "f") == "f"
    ensures Canonical(MissingPlan(), "m") == "m" && Canonical(MissingPlan(), "n") == "n"
    ensures Canonical(MissingPlan(), "i") == "i" && Canonical(MissingPlan(), "o") == "o"
  {
  }

  lemma DependentsOf(policy: Policy, path: string)
    requires path in {"a.ts", "b.ts", "c.ts"}
    ensures FlatMap(DependentStepsOf(MissingInputs()), Listed(MissingPlan().reverseDependents, path))
            == [ToDependent(DependentOn(path))]
    ensures FilePackageSteps(MissingInputs(), path) == [] && Listed(MissingPlan().testsByFile, path) == []
  {
    var dependent := DependentOn(path);
    ShortPathsAreNoTests(dependent);
    hide IsTestPath;
    assert Listed(MissingPlan().reverseDependents, path) == [dependent];
    assert FilePackageSteps(MissingInputs(), path) == [];
    hide MissingPlan;
    FlatMapSingles(DependentStepsOf(MissingInputs()), [dependent], [ToDependent(dependent)]);
  }

  lemma JoinFileSteps(inp: Inputs, policy: Policy, path: string, members: seq<Step>, dependents: seq<Step>)
    requires FlatMap(MemberStepsOf(inp), Listed(inp.plan.fileToSymbols, path)) == members
    requires FlatMap(DependentStepsOf(inp), Listed(inp.plan.reverseDependents, path)) == dependents
    requires FilePackageSteps(inp, path) == [] && Listed(inp.plan.testsByFile, path) == []
    ensures FileSteps(inp, policy, path) == members + dependents
  {
  }

  lemma RawFileSteps(policy: Policy, path: string)
    requires path in {"a.ts", "b.ts", "c.ts"}
    ensures FileSteps(MissingInputs(), policy, path) == StepsAt(FileNode(path))
  {
    DependentsOf(policy, path);
    MembersOf(path);
    hide MissingPlan;
    hide FileSteps;
    hide FlatMap;
    hide MembersAt;
    hide ToDependent;
    hide DependentOn;
    JoinFileSteps(MissingInputs(), policy, path, MembersAt(path), [ToDependent(DependentOn(path))]);
  }

  lemma ExpandFile(policy: Policy, path: string)
    requires path in {"a.ts", "b.ts", "c.ts"}
    ensures ExpandNode(MissingInputs(), policy, FileNode(path)) == StepsAt(FileNode(path))
  {
    RawFileSteps(policy, path);
    FileStepsLeave(path);
    hide MissingPlan;
    hide FileSteps;
    hide StepsAt;
    hide Entity.Key;
    hide Node.Key;
    NoneIsSelf(StepsAt(FileNode(path)), FileNode(path).Key());
  }

  lemma FileStepsLeave(path: string)
    requires path in {"a.ts", "b.ts", "c.ts"}
    ensures forall s :: s in StepsAt(FileNode(path)) ==> s.entity.Key() != FileNode(path).Key()
  {
    hide MissingPlan;
    KeysDiffer();
    forall s | s in MembersAt(path) ensures s.entity.Symbol? {}
    assert DependentOn(path) != path;
    hide MembersAt;
    forall s | s in MembersAt(path) ensures s.entity.Key() != FileNode(path).Key() {
      assert s.entity.Key() == SymbolNode(s.entity.symbolId).Key();
    }
    assert ToDependent(DependentOn(path)).entity.Key() == FileNode(DependentOn(path)).Key();
  }

  /* ---- the order of the steps ---- */

  /** `a` comes before `b`, not after it, and is not the same step. */
  predicate Before(a: Step, b: Step) {
    !StepLess(b, a) && a.entity.Key() != b.entity.Key()
  }

  lemma AlreadyDistinct(steps: seq<Step>)
    requires forall i, j :: 0 <= i < j < |steps| ==> Before(steps[i], steps[j])
    ensures DedupBy(SameStep, steps) == steps
  {
    forall i | 0 < i < |steps| ensures !SameStep(steps[i], steps[i - 1]) {
      assert Before(steps[i - 1], steps[i]);
    }
    DedupOfDistinct(SameStep, steps);
  }

  lemma AlreadyOrdered(steps: seq<Step>)
    requires forall i, j :: 0 <= i < j < |steps| ==> Before(steps[i], steps[j])
    ensures OrderedSteps(steps) == steps
  {
    AlreadyDistinct(steps);
    hide StepLess;
    SortOfSorted(StepLess, steps);
  }

  /** Sorting comparable steps gives the one increasing list of the same steps. */
  lemma OrderedAs(raw: seq<Step>, steps: seq<Step>)
    requires forall i, j :: 0 <= i < j < |raw| ==> StepLess(raw[i], raw[j]) || StepLess(raw[j], raw[i])
    requires StrictlySorted(StepLess, steps) && forall x :: x in raw <==> x in steps
    requires forall i, j :: 0 <= i < j < |steps| ==> Before(steps[i], steps[j])
    ensures OrderedSteps(raw) == steps
  {
    AlreadyDistinct(steps);
    hide StepLess;
    hide Before;
    StepLessIsWeakOrder();
    SortByStrict(StepLess, raw);
    forall x ensures x in SortBy(StepLess, raw) <==> x in steps { SortByMembers(StepLess, raw, x); }
    StrictlySortedUnique(StepLess, SortBy(StepLess, raw), steps);
  }

  lemma MembersAscend(a: string, b: string)
    requires StrLess(a, b)
    ensures Before(ToMember(a), ToMember(b))
  {
    StrIrreflexive(a);
    if StrLess(b, a) {
      StrTransitive(a, b, a);
    }
    StrLessAfterPrefix("symbol:", b, a);
    KeysDiffer();
    assert SymbolNode(a).Key() == ToMember(a).entity.Key() && SymbolNode(b).Key() == ToMember(b).entity.Key();
    hide SymbolEntity;
  }

  lemma MembersFirst(id: string, path: string)
    ensures Before(ToMember(id), ToDependent(path))
  {
    KeysDiffer();
    assert SymbolNode(id).Key() == ToMember(id).entity.Key() && FileNode(path).Key() == ToDependent(path).entity.Key();
  }

  lemma MembersInOrder()
    ensures Before(ToMember("a"), ToMember("m")) && Before(ToMember("a"), ToMember("f"))
    ensures Before(ToMember("f"), ToMember("n")) && Before(ToMember("a"), ToMember("n"))
  {
    hide Before;
    MembersAscend("a", "m");
    MembersAscend("a", "f");
    MembersAscend("f", "n");
    MembersAscend("a", "n");
  }

  lemma StepsAtFiles()
    ensures StepsAt(FileNode("a.ts")) == [ToMember("a"), ToMember("m"), ToDependent("b.ts")]
    ensures StepsAt(FileNode("b.ts")) == [ToMember("a"), ToMember("f"), ToMember("n"), ToDependent("c.ts")]
  {
    hide ToMember;
    hide ToDependent;
    assert DependentOn("a.ts") == "b.ts" && DependentOn("b.ts") == "c.ts";
    assert MembersAt("a.ts") == [ToMember("a"), ToMember("m")];
    assert MembersAt("b.ts") == [ToMember("a"), ToMember("f"), ToMember("n")];
  }

  lemma OrderAtFiles()
    ensures OrderedSteps(StepsAt(FileNode("a.ts"))) == StepsAt(FileNode("a.ts"))
    ensures OrderedSteps(StepsAt(FileNode("b.ts"))) == StepsAt(FileNode("b.ts"))
  {
    StepsAtFiles();
    MembersInOrder();
    MembersFirst("a", "b.ts");
    MembersFirst("m", "b.ts");
    MembersFirst("a", "c.ts");
    MembersFirst("f", "c.ts");
    MembersFirst("n", "c.ts");
    hide Before;
    hide StepsAt;
    hide ToMember;
    hide ToDependent;
    hide OrderedSteps;
    AlreadyOrdered(StepsAt(FileNode("a.ts")));
    AlreadyOrdered(StepsAt(FileNode("b.ts")));
  }

  lemma TargetSteps()
    ensures StepLess(ToCaller(), ToOwner("a.ts")) && Before(ToCaller(), ToOwner("a.ts"))
    ensures StepLess(ToCaller(), ToCallingFile()) && Before(ToCaller(), ToCallingFile())
    ensures StepLess(ToOwner("a.ts"), ToCallingFile()) && Before(ToOwner("a.ts"), ToCallingFile())
  {
    KeysDiffer();
    assert ToOwner("a.ts").entity.Key() == FileNode("a.ts").Key();
    assert ToCaller().entity.Key() == SymbolNode("f").Key();
    assert ToCallingFile().entity.Key() == FileNode("b.ts").Key();
    hide SymbolEntity;
  }

  /** The caller comes before the declaring file, and the calling file last. */
  lemma OrderAtSymbols()
    ensures OrderedSteps(StepsAt(SymbolNode("a"))) == [ToCaller(), ToOwner("a.ts"), ToCallingFile()]
    ensures forall path :: OrderedSteps([ToOwner(path)]) == [ToOwner(path)]
  {
    TargetSteps();
    hide StepLess;
    hide Before;
    hide ToCaller;
    hide ToOwner;
    hide ToCallingFile;
    var raw, steps := StepsAt(SymbolNode("a")), [ToCaller(), ToOwner("a.ts"), ToCallingFile()];
    assert raw == [ToOwner("a.ts"), ToCaller(), ToCallingFile()];
    OrderedAs(raw, steps);
    forall path: string ensures OrderedSteps([ToOwner(path)]) == [ToOwner(path)] { AlreadyOrdered([ToOwner(path)]); }
  }

  /* ---- the run on that input ---- */

  function MissingDetour(): Detour {
    Detour(SymbolNode("f"), FileNode("a.ts"), FileNode("b.ts"), FileNode("c.ts"), SymbolNode("m"), SymbolNode("n"))
  }

  function Missing(cap: nat): Problem { Search(MissingInputs(), MissingParams(cap)) }

  function MissingRaw(cap: nat): Problem { RawGraph(MissingInputs(), MissingParams(cap)) }

  lemma MissingSettings(cap: nat)
    requires 2 <= cap <= 3
    ensures var p := Missing(cap);
            && p.seed == SymbolNode("a") == MissingRaw(cap).seed && p.policy.maxDepth == cap
            && 20 <= p.policy.maxNodes && 20 <= p.policy.maxEdges && 20 <= p.policy.maxCandidates
            && WellFormed(p)
  {
    SearchIsWellFormed(MissingInputs(), MissingParams(cap));
    hide WellFormed;
    hide MissingPlan;
    hide OrderedAt;
    hide RawAt;
    hide Relevance;
  }

  /** The nodes whose steps matter on the way to `e.ts`. */
  predicate OnTheWay(n: Node) {
    n in {SymbolNode("a"), SymbolNode("f"), SymbolNode("m"), FileNode("a.ts"), FileNode("b.ts"), FileNode("c.ts")}
  }

  lemma MissingSteps(cap: nat, n: Node)
    requires OnTheWay(n)
    ensures MissingRaw(cap).steps(n) == StepsAt(n)
    ensures Missing(cap).steps(n) == OrderedSteps(StepsAt(n))
  {
    var policy := ScenarioPolicy(ModifyBehavior, MissingParams(cap));
    if n == SymbolNode("a") {
      ExpandTarget(policy);
    } else if n.SymbolNode? {
      ExpandOwned(policy, n.id);
    } else {
      ExpandFile(policy, n.path);
    }
    hide StepsAt;
    hide ExpandNode;
    hide MissingPlan;
  }

  lemma MissingOrderedSteps(cap: nat)
    ensures var p := Missing(cap);
            && p.steps(SymbolNode("a")) == [ToCaller(), ToOwner("a.ts"), ToCallingFile()]
            && p.steps(SymbolNode("f")) == [ToOwner("b.ts")] && p.steps(SymbolNode("m")) == [ToOwner("a.ts")]
            && p.steps(FileNode("a.ts")) == [ToMember("a"), ToMember("m"), ToDependent("b.ts")]
            && p.steps(FileNode("b.ts")) == [ToMember("a"), ToMember("f"), ToMember("n"), ToDependent("c.ts")]
  {
    hide Missing;
    hide MissingRaw;
    hide OrderedSteps;
    MissingSteps(cap, SymbolNode("a"));
    MissingSteps(cap, SymbolNode("f"));
    MissingSteps(cap, SymbolNode("m"));
    MissingSteps(cap, FileNode("a.ts"));
    MissingSteps(cap, FileNode("b.ts"));
    OrderAtSymbols();
    OrderAtFiles();
    StepsAtFiles();
    hide MissingPlan;
  }

  lemma WhereStepsLead()
    ensures forall id: string :: ToMember(id).next == Some(SymbolNode(id)) && ToMember(id).tier == Certain
    ensures forall path: string :: ToOwner(path).next == Some(FileNode(path)) && ToOwner(path).tier == Certain
    ensures forall path: string :: ToDependent(path).next == Some(FileNode(path)) && ToDependent(path).tier == Likely
                                   && ToDependent(path).entity.Key() == FileNode(path).Key()
    ensures ToCaller().next == Some(SymbolNode("f")) && ToCaller().tier == Certain
    ensures ToCallingFile().next == Some(FileNode("b.ts")) && ToCallingFile().tier == Likely
  {
    hide MissingPlan;
  }

  lemma MissingNodesDiffer()
    ensures MissingDetour().Distinct(SymbolNode("a"))
  {
  }

  lemma MissingIsDetour(cap: nat)
    requires 2 <= cap <= 3
    ensures MissingDetour().In(Missing(cap)) && Missing(cap).policy.maxDepth == cap
  {
    hide Missing;
    hide MissingRaw;
    hide ToMember;
    hide ToOwner;
    hide ToDependent;
    hide ToCaller;
    hide ToCallingFile;
    hide Detour.Distinct;
    hide WellFormed;
    MissingSettings(cap);
    MissingOrderedSteps(cap);
    MissingNodesDiffer();
    WhereStepsLead();
  }

  lemma MissingRawSteps(cap: nat)
    ensures ToCallingFile() in MissingRaw(cap).steps(SymbolNode("a"))
    ensures ToDependent("c.ts") in MissingRaw(cap).steps(FileNode("b.ts"))
    ensures ToDependent("e.ts") in MissingRaw(cap).steps(FileNode("c.ts"))
  {
    hide MissingRaw;
    hide Missing;
    hide OrderedSteps;
    MissingSteps(cap, SymbolNode("a"));
    MissingSteps(cap, FileNode("b.ts"));
    MissingSteps(cap, FileNode("c.ts"));
    hide ToMember;
    hide ToOwner;
    hide ToCaller;
    hide ToCallingFile;
    hide ToDependent;
    var a, b, c := StepsAt(SymbolNode("a")), StepsAt(FileNode("b.ts")), StepsAt(FileNode("c.ts"));
    assert a[|a| - 1] == ToCallingFile();
    assert b[|b| - 1] == ToDependent("c.ts");
    assert c[|c| - 1] == ToDependent("e.ts");
  }

  /** One step further along raw steps. */
  lemma ChainOn(r: Problem, c: seq<Step>, n: Node, step: Step)
    requires IsChain(r, c) && At(r, c, |c|) == Some(n) && step in r.steps(n)
    ensures IsChain(r, c + [step]) && At(r, c + [step], |c| + 1) == step.next
    ensures EndsOn(r, c + [step], step.entity.Key())
  {
    hide Entity.Key;
    ExtendChain(r, c, step);
  }

  lemma WithinReach(r: Problem, c: seq<Step>, key: string, cap: nat)
    requires EndsOn(r, c, key) && |c| <= cap
    ensures HasChain(r, key, cap, Possible)
  {
    hide EndsOn;
  }

  /** Two steps lead to `c.ts`, and three to `e.ts`. */
  lemma MissedChains(cap: nat)
    requires 2 <= cap <= 3
    ensures HasChain(MissingRaw(cap), FileNode(if cap == 2 then "c.ts" else "e.ts").Key(), cap, Possible)
  {
    hide MissingRaw;
    hide Missing;
    hide IsChain;
    hide EndsOn;
    hide HasChain;
    hide ToDependent;
    hide ToCallingFile;
    hide Node.Key;
    hide Entity.Key;
    var r := MissingRaw(cap);
    MissingSettings(cap);
    MissingRawSteps(cap);
    WhereStepsLead();
    EmptyChain(r);
    ChainOn(r, [], SymbolNode("a"), ToCallingFile());
    ChainOn(r, [] + [ToCallingFile()], FileNode("b.ts"), ToDependent("c.ts"));
    var two := [] + [ToCallingFile()] + [ToDependent("c.ts")];
    if cap == 2 {
      WithinReach(r, two, FileNode("c.ts").Key(), cap);
    } else {
      ChainOn(r, two, FileNode("c.ts"), ToDependent("e.ts"));
      WithinReach(r, two + [ToDependent("e.ts")], FileNode("e.ts").Key(), cap);
    }
  }

  /** What is missed is none of the entities that the run can have recorded. */
  lemma MissedIsUnrecorded(cap: nat, p: Problem, s: State)
    requires 2 <= cap <= 3 && MissingDetour().In(p) && p.seed == SymbolNode("a")
    requires Known(p, MissingDetour(), s, if cap == 2 then {} else {SymbolNode("n").Key(), FileNode("c.ts").Key()})
    ensures var key := FileNode(if cap == 2 then "c.ts" else "e.ts").Key(); key != p.seed.Key() && key !in s.kept
  {
    hide Detour.In;
    KeysDiffer();
    hide Node.Key;
  }

  lemma DetourNodes()
    ensures MissingDetour().n == SymbolNode("n") && MissingDetour().c == FileNode("c.ts")
  {
  }
}
