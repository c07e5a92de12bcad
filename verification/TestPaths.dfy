/** Which paths count as test files. */
module TestPaths {
  import opened Enrichment

  /** Equal but for the case of the letters A to Z. */
  predicate SameLetters(a: string, b: string) {
    |a| == |b| && forall i :: 0 <= i < |a| ==>
      a[i] == b[i] || ('A' <= a[i] <= 'Z' && a[i] as int + 32 == b[i] as int)
  }

  /** The path contains this directory part, or ends in this suffix, in any letter case. */
  ghost predicate Mentions(path: string, part: string) {
    exists before, inside, after :: path == before + inside + after && SameLetters(inside, part)
  }

  ghost predicate Ends(path: string, suffix: string) {
    exists before, last :: path == before + last && SameLetters(last, suffix)
  }

  const TEST_SUFFIXES: set<string> :=
    {".test.ts", ".test.tsx", ".test.js", ".test.jsx", ".spec.ts", ".spec.tsx", ".spec.js", ".spec.jsx"}

  ghost predicate IsTestFile(path: string) {
    || Mentions(path, "/__tests__/") || Mentions(path, "/tests/")
    || exists suffix :: suffix in TEST_SUFFIXES && Ends(path, suffix)
  }

  /** No capital letter, as in all the parts looked for. */
  predicate Lower(s: string) {
    forall i :: 0 <= i < |s| ==> !('A' <= s[i] <= 'Z')
  }

  lemma LoweredMatches(s: string, part: string)
    requires Lower(part)
    ensures ToAsciiLowercase(s) == part <==> SameLetters(s, part)
  {
    var l := ToAsciiLowercase(s);
    if SameLetters(s, part) {
      forall i | 0 <= i < |s| ensures l[i] == part[i] {}
    }
    if l == part {
      forall i | 0 <= i < |s| ensures s[i] == part[i] || ('A' <= s[i] <= 'Z' && s[i] as int + 32 == part[i] as int) {
        assert l[i] == part[i];
      }
    }
  }

  lemma LoweredSlice(s: string, i: nat, j: nat)
    requires i <= j <= |s|
    ensures ToAsciiLowercase(s)[i..j] == ToAsciiLowercase(s[i..j])
  {
  }

  lemma HasPartMeans(path: string, part: string)
    requires Lower(part)
    ensures HasPart(ToAsciiLowercase(path), part) <==> Mentions(path, part)
  {
    var l := ToAsciiLowercase(path);
    if HasPart(l, part) {
      var i :| 0 <= i <= |l| && OccursAt(l, part, i);
      LoweredSlice(path, i, i + |part|);
      LoweredMatches(path[i..i + |part|], part);
      assert path == path[..i] + path[i..i + |part|] + path[i + |part|..];
    }
    if Mentions(path, part) {
      var before, inside, after :| path == before + inside + after && SameLetters(inside, part);
      LoweredSlice(path, |before|, |before| + |part|);
      assert path[|before|..|before| + |part|] == inside;
      LoweredMatches(inside, part);
      assert OccursAt(l, part, |before|);
    }
  }

  lemma EndsWithMeans(path: string, suffix: string)
    requires Lower(suffix)
    ensures EndsWith(ToAsciiLowercase(path), suffix) <==> Ends(path, suffix)
  {
    if |suffix| <= |path| {
      var i := |path| - |suffix|;
      LoweredSlice(path, i, |path|);
      assert ToAsciiLowercase(path)[i..|path|] == ToAsciiLowercase(path)[i..] && path[i..|path|] == path[i..];
      LoweredMatches(path[i..], suffix);
      assert path == path[..i] + path[i..];
    }
    if Ends(path, suffix) {
      var before, last :| path == before + last && SameLetters(last, suffix);
      assert path[|path| - |suffix|..] == last;
    }
  }

  /** A test file is recognised by a directory or a suffix of its path, in any letter case. */
  lemma TestPathsExactly(path: string)
    ensures IsTestPath(path) <==> IsTestFile(path)
  {
    hide HasPart;
    hide EndsWith;
    hide Mentions;
    hide Ends;
    hide ToAsciiLowercase;
    HasPartMeans(path, "/__tests__/");
    HasPartMeans(path, "/tests/");
    forall suffix | suffix in TEST_SUFFIXES
      ensures EndsWith(ToAsciiLowercase(path), suffix) <==> Ends(path, suffix)
    {
      EndsWithMeans(path, suffix);
    }
  }

  /** The file name is what follows the last slash. */
  lemma {:induction false} FileNameIsLast(dir: string, name: string)
    requires '/' !in name
    ensures FileName(name) == name && FileName(dir + "/" + name) == name
  {
    var path := dir + "/" + name;
    if name == "" {
      assert path[|path| - 1] == '/';
    } else {
      var n := |name| - 1;
      assert name == name[..n] + [name[n]] && name[n] in name;
      assert path[..|path| - 1] == dir + "/" + name[..n] && path[|path| - 1] == name[n];
      FileNameIsLast(dir, name[..n]);
    }
  }
}
