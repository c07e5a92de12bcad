/** `add_candidate` folded over a list of offers. */
module CandidateFold {
  import opened Ordering
  import opened ImpactModel

  function KeepAll(offers: seq<Candidate>): map<string, Candidate> {
    if offers == [] then map[] else AddCandidate(KeepAll(offers[..|offers| - 1]), offers[|offers| - 1])
  }

  ghost predicate HaveEvidence(offers: seq<Candidate>) {
    forall c :: c in offers ==> c.reasonPaths != []
  }

  /** What is kept for a key is one of its offers, and none of them is better. */
  lemma {:induction false} KeptIsMinimum(offers: seq<Candidate>, key: string)
    requires HaveEvidence(offers)
    ensures key in KeepAll(offers) <==> exists c :: c in offers && c.entity.Key() == key
    ensures key in KeepAll(offers) ==>
              var kept := KeepAll(offers)[key];
              && kept in offers && kept.entity.Key() == key
              && forall c :: c in offers && c.entity.Key() == key ==> !OfferLess(c, kept)
  {
    if offers != [] {
      var front, last := offers[..|offers| - 1], offers[|offers| - 1];
      assert offers == front + [last];
      KeptIsMinimum(front, key);
      OfferLessIrreflexive(last);
      var before, after := KeepAll(front), KeepAll(offers);
      assert last in offers;
      if key in before && last.entity.Key() == key && OfferLess(last, before[key]) {
        forall c | c in front && c.entity.Key() == key ensures !OfferLess(c, last) {
          if OfferLess(c, last) {
            OfferLessTransitive(c, last, before[key]);
          }
        }
      }
    }
  }

  /** Neither of two candidates is better: every compared field agrees. */
  lemma TiedCandidates(a: Candidate, b: Candidate)
    requires !OfferLess(a, b) && !OfferLess(b, a) && a.reasonPaths != [] && b.reasonPaths != []
    ensures SameCandidateKey(a, b)
    ensures |a.reasonPaths[0]| == |b.reasonPaths[0]| && PathText(a.reasonPaths[0]) == PathText(b.reasonPaths[0])
  {
    var x, y := PathText(a.reasonPaths[0]), PathText(b.reasonPaths[0]);
    if x != y {
      StrConnected(x, y);
    }
  }

  /** The order in which the offers arrive, and repeated ones, do not affect what is kept. */
  lemma OrderOfOffersIsIrrelevant(offers: seq<Candidate>, others: seq<Candidate>, key: string)
    requires HaveEvidence(offers) && forall c :: c in offers <==> c in others
    ensures key in KeepAll(offers) <==> key in KeepAll(others)
    ensures key in KeepAll(offers) ==>
              var a, b := KeepAll(offers)[key], KeepAll(others)[key];
              && SameCandidateKey(a, b)
              && a.reasonPaths != [] && b.reasonPaths != []
              && PathText(a.reasonPaths[0]) == PathText(b.reasonPaths[0])
  {
    KeptIsMinimum(offers, key);
    KeptIsMinimum(others, key);
    if key in KeepAll(offers) {
      TiedCandidates(KeepAll(offers)[key], KeepAll(others)[key]);
    }
  }
}
