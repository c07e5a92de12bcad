/** Lexical distance between repository paths: the number of components to leave and to enter. */
module PathDistance {

  /** `str::split('/')`: never empty, and one part longer than the number of separators. */
  function Components(path: string): (parts: seq<string>)
    ensures parts != []
  {
    if path == "" then [""]
    else
      var rest := Components(path[1..]);
      if path[0] == '/' then [""] + rest else [[path[0]] + rest[0]] + rest[1..]
  }

  function Slashed(parts: seq<string>): string
    requires parts != []
  {
    if |parts| == 1 then parts[0] else parts[0] + "/" + Slashed(parts[1..])
  }

  lemma LongerFirstPart(c: char, parts: seq<string>)
    requires parts != []
    ensures Slashed([[c] + parts[0]] + parts[1..]) == [c] + Slashed(parts)
  {
    var longer := [[c] + parts[0]] + parts[1..];
    assert longer[1..] == parts[1..];
  }

  /** Splitting loses nothing. */
  lemma {:induction false} SplitThenJoin(path: string)
    ensures Slashed(Components(path)) == path
  {
    if path != "" {
      SplitThenJoin(path[1..]);
      assert path == [path[0]] + path[1..];
      LongerFirstPart(path[0], Components(path[1..]));
      assert ([""] + Components(path[1..]))[1..] == Components(path[1..]);
    }
  }

  /** Length of the longest common prefix. */
  function SharedPrefix(a: seq<string>, b: seq<string>): (n: nat)
    ensures n <= |a| && n <= |b| && a[..n] == b[..n]
    ensures n < |a| && n < |b| ==> a[n] != b[n]
  {
    if a == [] || b == [] || a[0] != b[0] then 0
    else
      assert a == [a[0]] + a[1..] && b == [b[0]] + b[1..];
      1 + SharedPrefix(a[1..], b[1..])
  }

  function ComponentDistance(a: seq<string>, b: seq<string>): nat {
    |a| + |b| - SharedPrefix(a, b) * 2
  }

  function LexicalPathDistance(left: string, right: string): nat {
    ComponentDistance(Components(left), Components(right))
  }

  lemma PrefixAt(a: seq<string>, b: seq<string>, n: nat, i: nat)
    requires i < n <= |a| && n <= |b| && a[..n] == b[..n]
    ensures a[i] == b[i]
  {
    assert a[i] == a[..n][i] && b[i] == b[..n][i];
  }

  lemma SharedPrefixIsLongest(a: seq<string>, b: seq<string>, n: nat)
    requires n <= |a| && n <= |b| && a[..n] == b[..n]
    ensures n <= SharedPrefix(a, b)
  {
    var m := SharedPrefix(a, b);
    if m < n {
      PrefixAt(a, b, n, m);
    }
  }

  /** Two prefixes shared with `b` leave their shorter one shared by `a` and `c`. */
  lemma SharedPrefixThrough(a: seq<string>, b: seq<string>, c: seq<string>)
    ensures SharedPrefix(a, c) >= SharedPrefix(a, b) || SharedPrefix(a, c) >= SharedPrefix(b, c)
  {
    var m, n := SharedPrefix(a, b), SharedPrefix(b, c);
    var k := if m <= n then m else n;
    assert a[..k] == a[..m][..k] && b[..k] == b[..m][..k] && b[..k] == b[..n][..k] && c[..k] == c[..n][..k];
    SharedPrefixIsLongest(a, c, k);
  }

  lemma SharedPrefixSymmetric(a: seq<string>, b: seq<string>)
    ensures SharedPrefix(a, b) == SharedPrefix(b, a)
  {
    SharedPrefixIsLongest(a, b, SharedPrefix(b, a));
    SharedPrefixIsLongest(b, a, SharedPrefix(a, b));
  }

  /** The distance is a metric on paths: zero exactly on equal paths, symmetric, triangle. */
  lemma DistanceIsMetric(a: string, b: string, c: string)
    ensures LexicalPathDistance(a, b) == 0 <==> a == b
    ensures LexicalPathDistance(a, b) == LexicalPathDistance(b, a)
    ensures LexicalPathDistance(a, c) <= LexicalPathDistance(a, b) + LexicalPathDistance(b, c)
  {
    var x, y, z := Components(a), Components(b), Components(c);
    SharedPrefixSymmetric(x, y);
    SharedPrefixThrough(x, y, z);
    if LexicalPathDistance(a, b) == 0 {
      assert x == x[..|x|] && y == y[..|y|];
      SplitThenJoin(a);
      SplitThenJoin(b);
    }
    if a == b {
      SharedPrefixIsLongest(x, x, |x|);
    }
  }

  /* ---- the distance counts moves ---- */

  /** Leaving the last component, or entering one. */
  predicate Move(a: seq<string>, b: seq<string>) {
    (a != [] && b == a[..|a| - 1]) || (b != [] && a == b[..|b| - 1])
  }

  ghost predicate Moves(a: seq<string>, b: seq<string>, n: nat)
    decreases n
  {
    if n == 0 then a == b else exists m :: Move(a, m) && Moves(m, b, n - 1)
  }

  lemma MoveIsShort(a: seq<string>, b: seq<string>, c: seq<string>)
    requires Move(a, b)
    ensures ComponentDistance(a, c) <= 1 + ComponentDistance(b, c)
  {
    SharedPrefixThrough(a, b, c);
    var n := if |a| < |b| then |a| else |b|;
    assert a[..n] == b[..n];
    SharedPrefixIsLongest(a, b, n);
  }

  lemma {:induction false} NoFewerMoves(a: seq<string>, b: seq<string>, n: nat)
    requires Moves(a, b, n)
    ensures ComponentDistance(a, b) <= n
    decreases n
  {
    if n == 0 {
      assert a == a[..|a|];
      SharedPrefixIsLongest(a, b, |a|);
    } else {
      var m :| Move(a, m) && Moves(m, b, n - 1);
      NoFewerMoves(m, b, n - 1);
      MoveIsShort(a, m, b);
    }
  }

  /** Leave what is not shared, then enter the rest. */
  lemma {:induction false} EnoughMoves(a: seq<string>, b: seq<string>)
    ensures Moves(a, b, ComponentDistance(a, b))
    decreases ComponentDistance(a, b)
  {
    var k := SharedPrefix(a, b);
    if k < |a| {
      var m := a[..|a| - 1];
      assert m[..k] == a[..k];
      SharedPrefixIsLongest(m, b, k);
      SharedPrefixWithin(m, a, b);
      EnoughMoves(m, b);
      assert Move(a, m);
    } else if k < |b| {
      var m := b[..k + 1];
      assert a == m[..|m| - 1] by { assert a == a[..k]; }
      SharedPrefixIsLongest(m, b, k + 1);
      EnoughMoves(m, b);
      assert Move(a, m);
    } else {
      assert a == a[..k] && b == b[..k];
    }
  }

  /** A shorter list shares no more. */
  lemma SharedPrefixWithin(m: seq<string>, a: seq<string>, b: seq<string>)
    requires |m| <= |a| && m == a[..|m|]
    ensures SharedPrefix(m, b) <= SharedPrefix(a, b)
  {
    var n := SharedPrefix(m, b);
    assert a[..n] == m[..n];
    SharedPrefixIsLongest(a, b, n);
  }

  /** The distance is the least number of components to leave and to enter, one at a time at the end, on
    the way from one path to the other. */
  lemma DistanceCountsMoves(left: string, right: string, n: nat)
    ensures Moves(Components(left), Components(right), LexicalPathDistance(left, right))
    ensures Moves(Components(left), Components(right), n) ==> LexicalPathDistance(left, right) <= n
  {
    EnoughMoves(Components(left), Components(right));
    if Moves(Components(left), Components(right), n) {
      NoFewerMoves(Components(left), Components(right), n);
    }
  }

  /** The parts have no slash. */
  lemma {:induction false} PartsHaveNoSlash(path: string)
    ensures forall i :: 0 <= i < |Components(path)| ==> '/' !in Components(path)[i]
  {
    if path != "" {
      PartsHaveNoSlash(path[1..]);
    }
  }

  /** The scan of `zip` and `take_while`, as a loop. */
  method MeasureDistance(left: string, right: string) returns (distance: nat)
    ensures distance == LexicalPathDistance(left, right)
  {
    var l, r := Components(left), Components(right);
    var shared := 0;
    while shared < |l| && shared < |r| && l[shared] == r[shared]
      invariant shared <= |l| && shared <= |r| && l[..shared] == r[..shared]
    {
      shared := shared + 1;
    }
    SharedPrefixIsLongest(l, r, shared);
    var n := SharedPrefix(l, r);
    if shared < n {
      PrefixAt(l, r, n, shared);
    }
    distance := |l| + |r| - shared * 2;
  }
}
