/** Text order, and sorting by an arbitrary order.

  Rust's `String` order compares UTF-8 bytes, which on Unicode scalar values is the
  order of code points, so `StrLess` compares characters.  `SortBy` stands for
  `Vec::sort_by`, which is stable; `SortDedup` stands for `sort` followed by `dedup`. */
module Ordering {

  datatype Option<+T> = None | Some(value: T)

  predicate StrLess(a: string, b: string) {
    b != "" && (a == "" || a[0] < b[0] || (a[0] == b[0] && StrLess(a[1..], b[1..])))
  }

  lemma {:induction false} StrIrreflexive(a: string)
    ensures !StrLess(a, a)
  {
    if a != "" {
      StrIrreflexive(a[1..]);
    }
  }

  lemma {:induction false} StrTransitive(a: string, b: string, c: string)
    requires StrLess(a, b) && StrLess(b, c)
    ensures StrLess(a, c)
  {
    if a != "" && a[0] == b[0] == c[0] {
      StrTransitive(a[1..], b[1..], c[1..]);
    }
  }

  lemma {:induction false} StrConnected(a: string, b: string)
    requires a != b
    ensures StrLess(a, b) || StrLess(b, a)
  {
    if a != "" && b != "" && a[0] == b[0] {
      assert a == [a[0]] + a[1..] && b == [b[0]] + b[1..];
      StrConnected(a[1..], b[1..]);
    }
  }

  lemma StrCotransitive(a: string, b: string, c: string)
    ensures a == b || StrLess(a, b) || StrLess(b, a)
    ensures StrLess(a, c) ==> StrLess(a, b) || StrLess(b, c)
  {
    if a != b {
      StrConnected(a, b);
      if StrLess(b, a) && StrLess(a, c) {
        StrTransitive(b, a, c);
      }
    }
  }

  lemma {:induction false} FirstDifferenceDecides(a: string, b: string, k: nat)
    requires k < |a| && k < |b| && a[..k] == b[..k] && a[k] != b[k]
    ensures StrLess(a, b) <==> a[k] < b[k]
  {
    if k > 0 {
      assert a[0] == a[..k][0] && b[0] == b[..k][0];
      assert a[1..][..k - 1] == a[..k][1..] && b[1..][..k - 1] == b[..k][1..];
      FirstDifferenceDecides(a[1..], b[1..], k - 1);
    }
  }

  lemma DepartsInTail(a: string, b: string, k: nat)
    requires a != "" && b != "" && a[0] == b[0]
    ensures Departs(a, b, k + 1) <==> Departs(a[1..], b[1..], k)
  {
    if k < |a| && k < |b| {
      assert a[..k + 1] == [a[0]] + a[1..][..k];
      assert b[..k + 1] == [b[0]] + b[1..][..k];
      assert a[1..][..k] == a[..k + 1][1..];
      assert b[1..][..k] == b[..k + 1][1..];
    }
  }

  /** Text order: at the first difference the smaller character, or the end of the text, comes first. */
  lemma {:induction false} StrLessExactly(a: string, b: string)
    ensures StrLess(a, b) <==> exists k: nat :: Departs(a, b, k)
  {
    if b != "" && a != "" && a[0] == b[0] {
      StrLessExactly(a[1..], b[1..]);
      hide Departs;
      if k: nat :| Departs(a[1..], b[1..], k) {
        DepartsInTail(a, b, k);
      }
      if k: nat :| Departs(a, b, k) {
        NotAtStart(a, b, k);
        DepartsInTail(a, b, k - 1);
      }
    } else {
      assert StrLess(a, b) ==> Departs(a, b, 0);
      forall k: nat | Departs(a, b, k) ensures k == 0 {
        DepartsLater(a, b, k);
      }
    }
  }

  lemma NotAtStart(a: string, b: string, k: nat)
    requires a != "" && b != "" && a[0] == b[0] && Departs(a, b, k)
    ensures k > 0
  {
  }

  lemma DepartsLater(a: string, b: string, k: nat)
    requires Departs(a, b, k)
    ensures k > 0 ==> a != "" && a[0] == b[0]
  {
    if k > 0 {
      assert a[0] == a[..k][0] && b[0] == b[..k][0];
    }
  }

  /** The texts agree before `k`, where `a` ends or has the smaller character. */
  predicate Departs(a: string, b: string, k: nat) {
    k < |b| && k <= |a| && a[..k] == b[..k] && (k == |a| || a[k] < b[k])
  }

  lemma StrLessAfterSame(head: char, a: string, b: string)
    ensures StrLess([head] + a, [head] + b) <==> StrLess(a, b)
  {
    assert ([head] + a)[1..] == a && ([head] + b)[1..] == b;
  }

  lemma {:induction false} StrLessAfterPrefix(prefix: string, a: string, b: string)
    ensures StrLess(prefix + a, prefix + b) <==> StrLess(a, b)
  {
    hide StrLess;
    if prefix == "" {
      assert prefix + a == a && prefix + b == b;
    } else {
      StrLessAfterPrefix(prefix[1..], a, b);
      StrLessAfterSame(prefix[0], prefix[1..] + a, prefix[1..] + b);
      assert prefix + a == [prefix[0]] + (prefix[1..] + a) && prefix + b == [prefix[0]] + (prefix[1..] + b);
    }
  }

  lemma StrLessIsStrictTotalOrder()
    ensures StrictTotalOrder(StrLess)
  {
    forall a: string ensures !StrLess(a, a) { StrIrreflexive(a); }
    forall a: string, b: string, c: string | StrLess(a, b) && StrLess(b, c) ensures StrLess(a, c) {
      StrTransitive(a, b, c);
    }
    forall a: string, b: string | a != b ensures StrLess(a, b) || StrLess(b, a) { StrConnected(a, b); }
  }

  /** Rust's `[String]::join`. */
  function Join(parts: seq<string>, separator: string): string {
    if |parts| == 0 then ""
    else if |parts| == 1 then parts[0]
    else parts[0] + separator + Join(parts[1..], separator)
  }

  /* ---- orders given by a predicate ---- */

  ghost predicate StrictWeakOrder<T(!new)>(lt: (T, T) -> bool) {
    && StrictOrder(lt)
    && (forall a, b, c :: lt(a, c) ==> lt(a, b) || lt(b, c))
  }

  ghost predicate StrictOrder<T(!new)>(lt: (T, T) -> bool) {
    && (forall a :: !lt(a, a))
    && (forall a, b, c :: lt(a, b) && lt(b, c) ==> lt(a, c))
  }

  ghost predicate StrictTotalOrder<T(!new)>(lt: (T, T) -> bool) {
    && StrictOrder(lt)
    && (forall a, b :: a != b ==> lt(a, b) || lt(b, a))
  }

  ghost predicate Sorted<T(!new)>(lt: (T, T) -> bool, s: seq<T>) {
    forall i, j :: 0 <= i < j < |s| ==> !lt(s[j], s[i])
  }

  ghost predicate StrictlySorted<T(!new)>(lt: (T, T) -> bool, s: seq<T>) {
    forall i, j :: 0 <= i < j < |s| ==> lt(s[i], s[j])
  }

  /** Puts `x` before the first element that is not smaller, hence before its equals. */
  function InsertBy<T>(lt: (T, T) -> bool, x: T, s: seq<T>): (r: seq<T>)
    ensures multiset(r) == multiset([x]) + multiset(s)
  {
    if s != [] && lt(s[0], x) then
      assert s == [s[0]] + s[1..];
      [s[0]] + InsertBy(lt, x, s[1..])
    else [x] + s
  }

  function SortBy<T>(lt: (T, T) -> bool, s: seq<T>): (r: seq<T>)
    ensures multiset(r) == multiset(s)
  {
    if s == [] then []
    else
      assert s == [s[0]] + s[1..];
      InsertBy(lt, s[0], SortBy(lt, s[1..]))
  }

  lemma {:induction false} InsertKeepsSorted<T(!new)>(lt: (T, T) -> bool, x: T, s: seq<T>)
    requires StrictWeakOrder(lt) && Sorted(lt, s)
    ensures Sorted(lt, InsertBy(lt, x, s))
  {
    if s != [] && lt(s[0], x) {
      var rest := InsertBy(lt, x, s[1..]);
      InsertKeepsSorted(lt, x, s[1..]);
      forall j | 0 <= j < |rest| ensures !lt(rest[j], s[0]) {
        assert rest[j] in multiset(rest);
        assert rest[j] == x || rest[j] in s[1..];
      }
    }
  }

  lemma {:induction false} SortBySorted<T(!new)>(lt: (T, T) -> bool, s: seq<T>)
    requires StrictWeakOrder(lt)
    ensures Sorted(lt, SortBy(lt, s))
  {
    if s != [] {
      SortBySorted(lt, s[1..]);
      InsertKeepsSorted(lt, s[0], SortBy(lt, s[1..]));
    }
  }

  lemma {:induction false} InsertKeepsStrict<T(!new)>(lt: (T, T) -> bool, x: T, s: seq<T>)
    requires StrictOrder(lt) && StrictlySorted(lt, s) && forall y :: y in s ==> lt(x, y) || lt(y, x)
    ensures StrictlySorted(lt, InsertBy(lt, x, s))
  {
    if s != [] && lt(s[0], x) {
      var rest := InsertBy(lt, x, s[1..]);
      InsertKeepsStrict(lt, x, s[1..]);
      forall j | 0 <= j < |rest| ensures lt(s[0], rest[j]) {
        assert rest[j] in multiset(rest);
        assert rest[j] == x || rest[j] in s[1..];
      }
    } else {
      forall j | 0 <= j < |s| ensures lt(x, s[j]) {
        assert s[j] in s && s[0] in s;
      }
    }
  }

  /** Sorting pairwise comparable elements makes the list strictly increasing. */
  lemma {:induction false} SortByStrict<T(!new)>(lt: (T, T) -> bool, s: seq<T>)
    requires StrictOrder(lt) && forall i, j :: 0 <= i < j < |s| ==> lt(s[i], s[j]) || lt(s[j], s[i])
    ensures StrictlySorted(lt, SortBy(lt, s))
  {
    if s != [] {
      SortByStrict(lt, s[1..]);
      forall y | y in SortBy(lt, s[1..]) ensures lt(s[0], y) || lt(y, s[0]) {
        SortByMembers(lt, s[1..], y);
      }
      InsertKeepsStrict(lt, s[0], SortBy(lt, s[1..]));
    }
  }

  lemma {:induction false} SortOfSorted<T(!new)>(lt: (T, T) -> bool, s: seq<T>)
    requires Sorted(lt, s)
    ensures SortBy(lt, s) == s
  {
    if s != [] {
      SortOfSorted(lt, s[1..]);
      assert |s| > 1 ==> s[1..][0] == s[1];
    }
  }

  lemma SortByMembers<T>(lt: (T, T) -> bool, s: seq<T>, x: T)
    ensures x in SortBy(lt, s) <==> x in s
  {
    assert x in SortBy(lt, s) <==> x in multiset(SortBy(lt, s));
    assert x in s <==> x in multiset(s);
  }

  /** `Vec::dedup_by`: drops an element that matches the last one kept. */
  function DedupBy<T>(same: (T, T) -> bool, s: seq<T>): seq<T> {
    if |s| <= 1 then s
    else
      var kept := DedupBy(same, s[..|s| - 1]);
      if kept != [] && same(s[|s| - 1], kept[|kept| - 1]) then kept else kept + [s[|s| - 1]]
  }

  lemma {:induction false} DedupMembers<T>(same: (T, T) -> bool, s: seq<T>, x: T)
    requires x in DedupBy(same, s)
    ensures x in s
  {
    if |s| > 1 {
      assert s == s[..|s| - 1] + [s[|s| - 1]];
      if x in DedupBy(same, s[..|s| - 1]) {
        DedupMembers(same, s[..|s| - 1], x);
      }
    }
  }

  lemma {:induction false} DedupOfDistinct<T(!new)>(same: (T, T) -> bool, s: seq<T>)
    requires forall i :: 0 < i < |s| ==> !same(s[i], s[i - 1])
    ensures DedupBy(same, s) == s
  {
    if |s| > 1 {
      DedupOfDistinct(same, s[..|s| - 1]);
    }
  }

  /** What is kept stays sorted, and no two neighbours match. */
  lemma {:induction false} DedupKeepsSorted<T(!new)>(lt: (T, T) -> bool, same: (T, T) -> bool, s: seq<T>)
    requires Sorted(lt, s)
    ensures Sorted(lt, DedupBy(same, s))
    ensures forall i :: 0 < i < |DedupBy(same, s)| ==> !same(DedupBy(same, s)[i], DedupBy(same, s)[i - 1])
  {
    if |s| > 1 {
      var front, last := s[..|s| - 1], s[|s| - 1];
      DedupKeepsSorted(lt, same, front);
      var kept := DedupBy(same, front);
      forall i | 0 <= i < |kept| ensures !lt(last, kept[i]) {
        DedupMembers(same, front, kept[i]);
      }
    }
  }

  /** Every element is represented by a kept one that it matches and that comes no later. */
  lemma {:induction false} DedupRepresents<T(!new)>(same: (T, T) -> bool, s: seq<T>, i: nat) returns (j: nat)
    requires i < |s| && forall a :: same(a, a)
    ensures j <= i && s[j] in DedupBy(same, s) && same(s[i], s[j])
  {
    if |s| == 1 {
      j := 0;
    } else {
      var front, last := s[..|s| - 1], s[|s| - 1];
      var kept := DedupBy(same, front);
      if i < |front| {
        j := DedupRepresents(same, front, i);
      } else if kept != [] && same(last, kept[|kept| - 1]) {
        DedupMembers(same, front, kept[|kept| - 1]);
        j :| 0 <= j < |front| && front[j] == kept[|kept| - 1];
      } else {
        j := i;
      }
    }
  }

  /** `sort` then `dedup` on a list of totally ordered values. */
  function SortDedup<T(==)>(lt: (T, T) -> bool, s: seq<T>): seq<T> {
    DedupBy((a: T, b: T) => a == b, SortBy(lt, s))
  }

  lemma {:induction false} DedupSortedIsStrict<T(!new)>(lt: (T, T) -> bool, s: seq<T>)
    requires StrictTotalOrder(lt) && Sorted(lt, s)
    ensures StrictlySorted(lt, DedupBy((a: T, b: T) => a == b, s))
    ensures s != [] ==> DedupBy((a: T, b: T) => a == b, s) != []
    ensures s != [] ==> var d := DedupBy((a: T, b: T) => a == b, s); d[|d| - 1] == s[|s| - 1]
  {
    if |s| > 1 {
      var front, last := s[..|s| - 1], s[|s| - 1];
      DedupSortedIsStrict(lt, front);
      var kept := DedupBy((a: T, b: T) => a == b, front);
      if last != kept[|kept| - 1] {
        assert lt(kept[|kept| - 1], last);
      }
    }
  }

  lemma TotalIsWeak<T(!new)>(lt: (T, T) -> bool)
    requires StrictTotalOrder(lt)
    ensures StrictWeakOrder(lt)
  {
    forall a, b, c | lt(a, c) ensures lt(a, b) || lt(b, c) {
      if a == b {} else if lt(b, a) { assert lt(b, c); }
    }
  }

  /** The canonical list: strictly increasing, with exactly the members of the input. */
  lemma SortDedupCanonical<T(!new)>(lt: (T, T) -> bool, s: seq<T>)
    requires StrictTotalOrder(lt)
    ensures StrictlySorted(lt, SortDedup(lt, s))
    ensures forall x :: x in SortDedup(lt, s) <==> x in s
  {
    TotalIsWeak(lt);
    SortBySorted(lt, s);
    var sorted, same := SortBy(lt, s), (a: T, b: T) => a == b;
    DedupSortedIsStrict(lt, sorted);
    forall x ensures x in DedupBy(same, sorted) <==> x in s {
      SortByMembers(lt, s, x);
      if x in DedupBy(same, sorted) {
        DedupMembers(same, sorted, x);
      }
      if x in sorted {
        var i :| 0 <= i < |sorted| && sorted[i] == x;
        var j := DedupRepresents(same, sorted, i);
      }
    }
  }

  /** A strictly increasing list is determined by its members. */
  lemma {:induction false} StrictlySortedUnique<T(!new)>(lt: (T, T) -> bool, a: seq<T>, b: seq<T>)
    requires StrictOrder(lt) && StrictlySorted(lt, a) && StrictlySorted(lt, b)
    requires forall x :: x in a <==> x in b
    ensures a == b
  {
    assert b == [] || b[0] in b;
    if a != [] {
      assert a[0] in a;
      var i :| 0 <= i < |b| && b[i] == a[0];
      var j :| 0 <= j < |a| && a[j] == b[0];
      assert a[0] == b[0];
      forall x ensures x in a[1..] <==> x in b[1..] {
        TailMembers(lt, a, x);
        TailMembers(lt, b, x);
      }
      StrictlySortedUnique(lt, a[1..], b[1..]);
      assert a == [a[0]] + a[1..] && b == [b[0]] + b[1..];
    }
  }

  lemma TailMembers<T(!new)>(lt: (T, T) -> bool, s: seq<T>, x: T)
    requires StrictOrder(lt) && StrictlySorted(lt, s) && s != []
    ensures x in s[1..] <==> x in s && x != s[0]
  {
    if x in s && x != s[0] {
      var i :| 0 <= i < |s| && s[i] == x;
      assert s[1..][i - 1] == x;
    }
  }

  /** Order and repetition of the input do not matter. */
  lemma SortDedupIgnoresOrder<T(!new)>(lt: (T, T) -> bool, a: seq<T>, b: seq<T>)
    requires StrictTotalOrder(lt) && forall x :: x in a <==> x in b
    ensures SortDedup(lt, a) == SortDedup(lt, b)
  {
    SortDedupCanonical(lt, a);
    SortDedupCanonical(lt, b);
    StrictlySortedUnique(lt, SortDedup(lt, a), SortDedup(lt, b));
  }
}
