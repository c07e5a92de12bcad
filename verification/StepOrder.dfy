/** Sorting and deduplicating the steps of a node loses no destination and worsens no tier. */
module StepOrder {
  import opened Ordering
  import opened ImpactModel

  lemma StepLessTransitive(a: Step, b: Step, c: Step)
    requires StepLess(a, b) && StepLess(b, c)
    ensures StepLess(a, c)
  {
    StrLessIsStrictTotalOrder();
    hide StrLess;
    hide NextKey;
    hide MetaKey;
    hide Entity.Key;
  }

  lemma StepLessCotransitive(a: Step, b: Step, c: Step)
    requires StepLess(a, c)
    ensures StepLess(a, b) || StepLess(b, c)
  {
    hide StrLess;
    hide NextKey;
    hide MetaKey;
    hide Entity.Key;
    StrCotransitive(NextKey(a.next), NextKey(b.next), NextKey(c.next));
    StrCotransitive(MetaKey(a.metadata), MetaKey(b.metadata), MetaKey(c.metadata));
    StrCotransitive(a.entity.Key(), b.entity.Key(), c.entity.Key());
  }

  lemma StepLessIsWeakOrder()
    ensures StrictWeakOrder(StepLess)
  {
    hide StepLess;
    forall a: Step ensures !StepLess(a, a) { StepLessIrreflexive(a); }
    forall a: Step, b: Step, c: Step | StepLess(a, b) && StepLess(b, c) ensures StepLess(a, c) {
      StepLessTransitive(a, b, c);
    }
    forall a: Step, b: Step, c: Step | StepLess(a, c) ensures StepLess(a, b) || StepLess(b, c) {
      StepLessCotransitive(a, b, c);
    }
  }

  lemma StepLessIrreflexive(a: Step)
    ensures !StepLess(a, a)
  {
    StrIrreflexive(a.entity.Key());
  }

  lemma SameStepSameNext(a: Step, b: Step)
    requires SameStep(a, b)
    ensures a.next == b.next
  {
    if a.next.Some? && b.next.Some? {
      NodeKeyInjective(a.next.value, b.next.value);
    }
  }

  lemma OrderedStepIsRaw(raw: seq<Step>, s: Step)
    requires s in OrderedSteps(raw)
    ensures s in raw
  {
    DedupMembers(SameStep, SortBy(StepLess, raw), s);
    SortByMembers(StepLess, raw, s);
  }

  lemma RawStepIsRepresented(raw: seq<Step>, s: Step) returns (r: Step)
    requires s in raw
    ensures r in OrderedSteps(raw) && TierRank(r.tier) <= TierRank(s.tier)
    ensures r.next == s.next && r.entity.Key() == s.entity.Key() && r.reason == s.reason
    ensures MetaKey(r.metadata) == MetaKey(s.metadata)
  {
    var sorted := SortBy(StepLess, raw);
    StepLessIsWeakOrder();
    SortBySorted(StepLess, raw);
    SortByMembers(StepLess, raw, s);
    var i :| 0 <= i < |sorted| && sorted[i] == s;
    var j := DedupRepresents(SameStep, sorted, i);
    r := sorted[j];
    SameStepSameNext(s, r);
    assert !StepLess(s, r) || j == i;
  }
}
