/** Refreshing the materialized impact state of a snapshot from that of an earlier one.

  A `Source` is a composed snapshot with its symbol graph, given by what the per-file pass computes
  from it.  Lists that the code sorts and deduplicates are sets here.  Occurrence ids contain the
  snapshot id, so a contribution kept from an earlier snapshot carries outdated ids: assembling the
  plan looks them up again by their snapshot-independent key. */
module IncrementalBuilder {
  import opened Ordering

  datatype Signature = Signature(
    ownedSymbols: seq<string>,
    referenceKeys: seq<string>,
    fileDependencies: seq<string>,
    symbolImports: seq<string>,
    symbolExports: seq<string>,
    packageName: Option<string>,
    packageRoot: Option<string>,
    isTestFile: bool,
    heuristicCandidates: seq<string>)

  datatype StoredReference = StoredReference(occurrenceId: string, key: string, path: string, owner: Option<string>)

  datatype PlanReference = PlanReference(occurrenceId: string, path: string, owner: Option<string>)

  /** One entry of the other merged indexes: reverse imports, exports, dependents, test links. */
  datatype Fact = Fact(index: string, key: string, value: string)

  /** References are paired with the canonical symbol they refer to. */
  datatype Contribution = Contribution(
    signature: Signature,
    references: set<(string, StoredReference)>,
    facts: set<Fact>)

  /** Maps that are computed afresh from the graph: names, canonical symbols, packages. */
  datatype Context = Context(entries: map<string, string>)

  datatype Source = Source(
    snapshotId: string,
    context: Context,
    occurrenceIdByKey: map<string, string>,
    contributions: map<string, Contribution>)

  datatype EnrichmentPlan = EnrichmentPlan(context: Context, references: set<(string, PlanReference)>, facts: set<Fact>)

  datatype MaterializedState = MaterializedState(plan: EnrichmentPlan, contributions: map<string, Contribution>)

  datatype Diff = Diff(leftId: string, rightId: string, changed: set<string>)

  /* ---- building ---- */

  function Resolve(src: Source, r: StoredReference): PlanReference {
    var id := if r.key in src.occurrenceIdByKey then src.occurrenceIdByKey[r.key] else r.occurrenceId;
    PlanReference(id, r.path, r.owner)
  }

  function AssemblePlan(src: Source, contributions: map<string, Contribution>): EnrichmentPlan {
    EnrichmentPlan(
      src.context,
      set p, x | p in contributions && x in contributions[p].references :: (x.0, Resolve(src, x.1)),
      set p, f | p in contributions && f in contributions[p].facts :: f)
  }

  function BuildFull(src: Source): MaterializedState {
    MaterializedState(AssemblePlan(src, src.contributions), src.contributions)
  }

  function SignatureAt(contributions: map<string, Contribution>, path: string): Option<Signature> {
    if path in contributions then Some(contributions[path].signature) else None
  }

  function TouchedFiles(diff: Diff, previousId: string, src: Source, previous: MaterializedState): set<string> {
    var all := src.contributions.Keys + previous.contributions.Keys;
    var changed := set p | p in diff.changed && p in all;
    if diff.leftId != previousId || diff.rightId != src.snapshotId then changed + all
    else changed + set p | p in all && SignatureAt(previous.contributions, p) != SignatureAt(src.contributions, p)
  }

  function MergedContributions(src: Source, previous: MaterializedState, touched: set<string>)
    : map<string, Contribution>
  {
    map p | p in src.contributions && (p in touched || p in previous.contributions) ::
      if p in touched then src.contributions[p] else previous.contributions[p]
  }

  function Incremental(src: Source, previousId: string, diff: Diff, previous: MaterializedState): MaterializedState {
    var contributions := MergedContributions(src, previous, TouchedFiles(diff, previousId, src, previous));
    MaterializedState(AssemblePlan(src, contributions), contributions)
  }

  /** `build_incremental`: keep what was not touched, then rebuild what was. */
  method BuildIncremental(src: Source, previousId: string, diff: Diff, previous: MaterializedState)
    returns (state: MaterializedState)
    ensures state == Incremental(src, previousId, diff, previous)
  {
    var touched := TouchedFiles(diff, previousId, src, previous);
    var contributions := map p | p in previous.contributions && p in src.contributions && p !in touched ::
                           previous.contributions[p];
    var todo := touched;
    while todo != {}
      invariant todo <= touched
      invariant contributions == map p | p in src.contributions
                  && (p in touched - todo || (p in previous.contributions && p !in touched)) ::
                  if p in touched then src.contributions[p] else previous.contributions[p]
      decreases todo
    {
      var path :| path in todo;
      if path in src.contributions {
        contributions := contributions[path := src.contributions[path]];
      }
      todo := todo - {path};
    }
    assert contributions == MergedContributions(src, previous, touched);
    state := MaterializedState(AssemblePlan(src, contributions), contributions);
  }

  /* ---- what the per-file pass guarantees ---- */

  /** A contribution without the occurrence ids, which alone depend on the snapshot id. */
  function Erased(c: Contribution): (Signature, set<(string, string, string, Option<string>)>, set<Fact>) {
    (c.signature, set x | x in c.references :: (x.0, x.1.key, x.1.path, x.1.owner), c.facts)
  }

  /** The signature of a file determines its contribution, occurrence ids aside. */
  ghost predicate SignaturesDecide(a: Source, b: Source) {
    forall p :: p in a.contributions && p in b.contributions
                && a.contributions[p].signature == b.contributions[p].signature
      ==> Erased(a.contributions[p]) == Erased(b.contributions[p])
  }

  /** Every reference a source contributes is indexed by its key, under its own id. */
  ghost predicate KeysIndexed(src: Source) {
    forall p, x :: p in src.contributions && x in src.contributions[p].references ==>
      x.1.key in src.occurrenceIdByKey && src.occurrenceIdByKey[x.1.key] == x.1.occurrenceId
  }

  /* ---- the refreshed state against a full rebuild ---- */

  /** Same plan as a full rebuild, and the same contributions up to occurrence ids. */
  ghost predicate Faithful(src: Source, state: MaterializedState) {
    && state.plan == BuildFull(src).plan
    && SameUpToIds(src.contributions, state.contributions)
  }

  ghost predicate SameUpToIds(a: map<string, Contribution>, b: map<string, Contribution>) {
    a.Keys == b.Keys && forall p :: p in a ==> Erased(a[p]) == Erased(b[p])
  }

  /** Occurrence ids do not reach the plan: references are looked up by key. */
  lemma ErasedContributionsFixThePlan(src: Source, a: map<string, Contribution>, b: map<string, Contribution>)
    requires SameUpToIds(a, b) && forall p, x :: p in a && x in a[p].references ==> x.1.key in src.occurrenceIdByKey
    ensures AssemblePlan(src, a) == AssemblePlan(src, b)
  {
    ReferencesCarryOver(src, a, b);
    forall p | p in a ensures a[p].facts == b[p].facts && Erased(a[p]) == Erased(b[p]) {}
    forall p, x | p in b && x in b[p].references ensures x.1.key in src.occurrenceIdByKey {
      assert (x.0, x.1.key, x.1.path, x.1.owner) in Erased(b[p]).1;
      var y :| y in a[p].references && (y.0, y.1.key, y.1.path, y.1.owner) == (x.0, x.1.key, x.1.path, x.1.owner);
    }
    ReferencesCarryOver(src, b, a);
    assert AssemblePlan(src, a).facts == AssemblePlan(src, b).facts;
  }

  lemma ReferencesCarryOver(src: Source, a: map<string, Contribution>, b: map<string, Contribution>)
    requires SameUpToIds(a, b) && forall p, x :: p in a && x in a[p].references ==> x.1.key in src.occurrenceIdByKey
    ensures AssemblePlan(src, a).references <= AssemblePlan(src, b).references
  {
    forall r | r in AssemblePlan(src, a).references ensures r in AssemblePlan(src, b).references {
      var p, x :| p in a && x in a[p].references && r == (x.0, Resolve(src, x.1));
      assert (x.0, x.1.key, x.1.path, x.1.owner) in Erased(a[p]).1;
      assert Erased(a[p]) == Erased(b[p]);
      var y :| y in b[p].references && (y.0, y.1.key, y.1.path, y.1.owner) == (x.0, x.1.key, x.1.path, x.1.owner);
      assert r == (y.0, Resolve(src, y.1));
    }
  }

  /** Every file of the new snapshot is present in the merged contributions, as the rebuild would
    have it up to occurrence ids. */
  lemma MergeIsSameUpToIds(earlier: Source, src: Source, diff: Diff, previous: MaterializedState)
    requires SignaturesDecide(earlier, src) && Faithful(earlier, previous)
    ensures var touched := TouchedFiles(diff, earlier.snapshotId, src, previous);
            SameUpToIds(src.contributions, MergedContributions(src, previous, touched))
  {
    var touched := TouchedFiles(diff, earlier.snapshotId, src, previous);
    var merged := MergedContributions(src, previous, touched);
    forall p | p in src.contributions ensures p in merged && Erased(src.contributions[p]) == Erased(merged[p]) {
      if p !in touched {
        assert SignatureAt(previous.contributions, p) == SignatureAt(src.contributions, p);
        assert Erased(earlier.contributions[p]) == Erased(previous.contributions[p]);
        assert earlier.contributions[p].signature == Erased(earlier.contributions[p]).0;
      }
    }
  }

  /** A refresh from a faithful state is faithful, whatever the reported diff. */
  lemma IncrementalIsFaithful(earlier: Source, src: Source, diff: Diff, previous: MaterializedState)
    requires SignaturesDecide(earlier, src) && KeysIndexed(src) && Faithful(earlier, previous)
    ensures Faithful(src, Incremental(src, earlier.snapshotId, diff, previous))
  {
    MergeIsSameUpToIds(earlier, src, diff, previous);
    var merged := MergedContributions(src, previous, TouchedFiles(diff, earlier.snapshotId, src, previous));
    ErasedContributionsFixThePlan(src, src.contributions, merged);
  }

  /* ---- what the plan and the contributions are ---- */

  /** File `p` contributes a reference to the symbol, from this path and owner, whose id in the snapshot's
    index is this one. */
  predicate Contributes(src: Source, p: string, x: (string, StoredReference), symbol: string, r: PlanReference) {
    && p in src.contributions && x in src.contributions[p].references
    && x.0 == symbol && x.1.path == r.path && x.1.owner == r.owner
    && x.1.key in src.occurrenceIdByKey && src.occurrenceIdByKey[x.1.key] == r.occurrenceId
  }

  /** The plan of a snapshot: its own names, canonical symbols and packages; the facts and the references
    that its files contribute, and no others; references under the ids of its own index. */
  ghost predicate IsPlanOf(src: Source, plan: EnrichmentPlan) {
    && plan.context == src.context
    && (forall f :: f in plan.facts <==> exists p :: p in src.contributions && f in src.contributions[p].facts)
    && (forall symbol, r :: (symbol, r) in plan.references <==> exists p, x :: Contributes(src, p, x, symbol, r))
  }

  lemma FullPlanHolds(src: Source)
    requires KeysIndexed(src)
    ensures IsPlanOf(src, BuildFull(src).plan) && BuildFull(src).contributions == src.contributions
  {
    var plan := BuildFull(src).plan;
    forall symbol, r ensures (symbol, r) in plan.references <==> exists p, x :: Contributes(src, p, x, symbol, r) {
      if (symbol, r) in plan.references {
        var p, x :| p in src.contributions && x in src.contributions[p].references
                    && (symbol, r) == (x.0, Resolve(src, x.1));
        assert Contributes(src, p, x, symbol, r);
      }
      if p, x :| Contributes(src, p, x, symbol, r) {
        assert (x.0, Resolve(src, x.1)) == (symbol, r);
      }
    }
  }

  /** A refresh from a faithful state gives the plan of the new snapshot, whatever the reported diff. */
  lemma IncrementalPlanHolds(earlier: Source, src: Source, diff: Diff, previous: MaterializedState)
    requires SignaturesDecide(earlier, src) && KeysIndexed(src) && Faithful(earlier, previous)
    ensures IsPlanOf(src, Incremental(src, earlier.snapshotId, diff, previous).plan)
  {
    IncrementalIsFaithful(earlier, src, diff, previous);
    FullPlanHolds(src);
  }

  lemma FaithfulPlanHolds(src: Source, state: MaterializedState)
    requires KeysIndexed(src) && Faithful(src, state)
    ensures IsPlanOf(src, state.plan) && state.contributions.Keys == src.contributions.Keys
  {
    FullPlanHolds(src);
  }

  /** An earlier contribution is reused only under a diff between the two snapshots, for a file that the
    diff does not report and whose signature is unchanged. */
  predicate Reused(src: Source, previousId: string, diff: Diff, previous: MaterializedState, p: string) {
    && diff.leftId == previousId && diff.rightId == src.snapshotId && p !in diff.changed
    && p in previous.contributions && p in src.contributions
    && previous.contributions[p].signature == src.contributions[p].signature
  }

  /** A refresh has the files of the new snapshot, from whatever state, and keeps exactly the contributions
    that may be reused. */
  lemma RefreshedContributions(src: Source, previousId: string, diff: Diff, previous: MaterializedState, p: string)
    ensures var state := Incremental(src, previousId, diff, previous);
            && (p in state.contributions <==> p in src.contributions)
            && (p in src.contributions ==>
                  state.contributions[p] == if Reused(src, previousId, diff, previous, p)
                                            then previous.contributions[p] else src.contributions[p])
  {
    assert SignatureAt(previous.contributions, p) == SignatureAt(src.contributions, p) <==>
           ((p in previous.contributions <==> p in src.contributions)
            && (p in src.contributions ==> previous.contributions[p].signature == src.contributions[p].signature));
  }

  /* ---- the whole stored state ---- */

  /** The ids that the earlier state carries for a file are the current ones. */
  ghost predicate IdsCurrent(src: Source, kept: Contribution) {
    forall x :: x in kept.references ==>
      x.1.key in src.occurrenceIdByKey && src.occurrenceIdByKey[x.1.key] == x.1.occurrenceId
  }

  /** The plan always equals that of a full rebuild; the whole stored state does exactly when every
    kept file carries the ids that the new snapshot's index gives its references. */
  lemma WholeStateEqualsRebuild(earlier: Source, src: Source, diff: Diff, previous: MaterializedState)
    requires SignaturesDecide(earlier, src) && KeysIndexed(src) && Faithful(earlier, previous)
    ensures var touched := TouchedFiles(diff, earlier.snapshotId, src, previous);
            Incremental(src, earlier.snapshotId, diff, previous) == BuildFull(src) <==>
            forall p :: p in src.contributions && p in previous.contributions && p !in touched
              ==> IdsCurrent(src, previous.contributions[p])
  {
    IncrementalIsFaithful(earlier, src, diff, previous);
    var touched := TouchedFiles(diff, earlier.snapshotId, src, previous);
    var merged := MergedContributions(src, previous, touched);
    MergeIsSameUpToIds(earlier, src, diff, previous);
    forall p | p in src.contributions && p in previous.contributions && p !in touched
      ensures merged[p] == src.contributions[p] <==> IdsCurrent(src, previous.contributions[p])
    {
      assert merged[p] == previous.contributions[p];
      KeptIsCurrent(src, p, merged[p]);
    }
    if forall p :: p in src.contributions && p in previous.contributions && p !in touched
                   ==> IdsCurrent(src, previous.contributions[p]) {
      assert merged == src.contributions;
    }
  }

  /** Up to ids the kept contribution is the new one; so it is the new one if its ids are current. */
  lemma KeptIsCurrent(src: Source, p: string, kept: Contribution)
    requires KeysIndexed(src) && p in src.contributions && Erased(src.contributions[p]) == Erased(kept)
    ensures kept == src.contributions[p] <==> IdsCurrent(src, kept)
  {
    var rebuilt := src.contributions[p];
    if IdsCurrent(src, kept) {
      forall x | x in kept.references ensures x in rebuilt.references {
        assert (x.0, x.1.key, x.1.path, x.1.owner) in Erased(kept).1;
        var y :| y in rebuilt.references && (y.0, y.1.key, y.1.path, y.1.owner) == (x.0, x.1.key, x.1.path, x.1.owner);
        assert y == x;
      }
      forall y | y in rebuilt.references ensures y in kept.references {
        assert (y.0, y.1.key, y.1.path, y.1.owner) in Erased(rebuilt).1;
        var x :| x in kept.references && (x.0, x.1.key, x.1.path, x.1.owner) == (y.0, y.1.key, y.1.path, y.1.owner);
        assert y == x;
      }
      assert kept.references == rebuilt.references;
    }
  }

  /** Occurrence ids of the earlier state are not those of the new snapshot. */
  ghost predicate IdsDiffer(src: Source, previous: MaterializedState) {
    forall p, x, y :: p in src.contributions && p in previous.contributions
      && x in previous.contributions[p].references && y in src.contributions[p].references
      ==> x.1.occurrenceId != y.1.occurrenceId
  }

  /** In particular, when the earlier ids all differ, no kept file may contain a reference. */
  lemma WholeStateWhenIdsDiffer(earlier: Source, src: Source, diff: Diff, previous: MaterializedState)
    requires SignaturesDecide(earlier, src) && KeysIndexed(src) && Faithful(earlier, previous)
    requires IdsDiffer(src, previous)
    ensures var touched := TouchedFiles(diff, earlier.snapshotId, src, previous);
            Incremental(src, earlier.snapshotId, diff, previous) == BuildFull(src) <==>
            forall p :: p in src.contributions && p in previous.contributions && p !in touched
              ==> src.contributions[p].references == {}
  {
    WholeStateEqualsRebuild(earlier, src, diff, previous);
    var touched := TouchedFiles(diff, earlier.snapshotId, src, previous);
    var merged := MergedContributions(src, previous, touched);
    MergeIsSameUpToIds(earlier, src, diff, previous);
    forall p | p in src.contributions && p in previous.contributions && p !in touched
      ensures IdsCurrent(src, previous.contributions[p]) <==> src.contributions[p].references == {}
    {
      assert merged[p] == previous.contributions[p];
      KeptIsCurrent(src, p, merged[p]);
      ErasedEmpty(src.contributions[p]);
      ErasedEmpty(merged[p]);
      if src.contributions[p].references != {} {
        var y :| y in src.contributions[p].references;
      }
    }
  }

  lemma ErasedEmpty(c: Contribution)
    ensures Erased(c).1 == {} <==> c.references == {}
  {
    if c.references != {} {
      var x :| x in c.references;
      assert (x.0, x.1.key, x.1.path, x.1.owner) in Erased(c).1;
    }
  }

  /** ... and it can be outdated: one unchanged file with one reference, refreshed from snapshot
    `1` to `2`, keeps the occurrence id of snapshot `1`, though the plans agree. */
  lemma KeptContributionsCanBeOutdated()
    ensures var earlier, src := OneReference("1"), OneReference("2");
            && SignaturesDecide(earlier, src) && KeysIndexed(src) && Faithful(earlier, BuildFull(earlier))
            && Incremental(src, "1", Diff("1", "2", {}), BuildFull(earlier)) != BuildFull(src)
            && Incremental(src, "1", Diff("1", "2", {}), BuildFull(earlier)).plan == BuildFull(src).plan
  {
    var earlier, src := OneReference("1"), OneReference("2");
    var previous, diff := BuildFull(earlier), Diff("1", "2", {});
    var one := ("s", StoredReference("occ1", "k", "a.ts", None));
    assert Erased(earlier.contributions["a.ts"]) == Erased(src.contributions["a.ts"]) by {
      assert Erased(earlier.contributions["a.ts"]).1 == {("s", "k", "a.ts", None)};
      assert Erased(src.contributions["a.ts"]).1 == {("s", "k", "a.ts", None)};
    }
    IncrementalIsFaithful(earlier, src, diff, previous);
    assert TouchedFiles(diff, "1", src, previous) == {};
    var kept := Incremental(src, "1", diff, previous).contributions;
    assert "occ" + "1" == "occ1" && ("occ" + "2")[3] != "occ1"[3];
    assert kept["a.ts"] == earlier.contributions["a.ts"];
    assert one in kept["a.ts"].references && one !in src.contributions["a.ts"].references;
  }

  function OneReference(id: string): Source {
    Source(id, Context(map[]), map["k" := "occ" + id],
           map["a.ts" := Contribution(Signature(["f"], ["k"], [], [], [], None, None, false, []),
                                      {("s", StoredReference("occ" + id, "k", "a.ts", None))}, {})])
  }
}
