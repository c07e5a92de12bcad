/** What the digest of a working-tree status can tell apart.

  The digest hashes one text: the head and the five lists, one tagged line per entry.  The text tells
  apart everything but how a rename divides into its two names, and a missing head from the head `-`. */
module StatusDigest {
  import opened Ordering
  import opened Porcelain

  predicate OneLine(s: string) { '\n' !in s }

  predicate OneLineEach(names: seq<string>) {
    forall i :: 0 <= i < |names| ==> OneLine(names[i])
  }

  /** No name in the status has a newline. */
  predicate Plain(s: Status) {
    && OneLineEach(s.dirty) && OneLineEach(s.untracked) && OneLineEach(s.deleted) && OneLineEach(s.ignored)
    && forall i :: 0 <= i < |s.renamed| ==> OneLine(s.renamed[i].from) && OneLine(s.renamed[i].to)
  }

  /* ---- joined lines ---- */

  lemma {:induction false} FirstNewline(a: string, x: string)
    requires OneLine(a)
    ensures var s := a + "\n" + x; s[|a|] == '\n' && forall i :: 0 <= i < |a| ==> s[i] != '\n'
    ensures var s := a + "\n" + x; a == s[..|a|] && x == s[|a| + 1..]
  {
  }

  /** Two texts that continue after their first newline agree before and after it. */
  lemma FirstLineAgrees(a: string, x: string, b: string, y: string)
    requires OneLine(a) && OneLine(b) && a + "\n" + x == b + "\n" + y
    ensures a == b && x == y
  {
    FirstNewline(a, x);
    FirstNewline(b, y);
  }

  lemma JoinHasNewline(a: seq<string>)
    requires OneLineEach(a) && a != []
    ensures '\n' in Join(a, "\n") <==> |a| > 1
  {
    if |a| > 1 {
      FirstNewline(a[0], Join(a[1..], "\n"));
      assert (a[0] + "\n" + Join(a[1..], "\n"))[|a[0]|] == '\n';
    }
  }

  lemma {:induction false} JoinIsInjective(a: seq<string>, b: seq<string>)
    requires OneLineEach(a) && OneLineEach(b) && a != [] && b != [] && Join(a, "\n") == Join(b, "\n")
    ensures a == b
  {
    JoinHasNewline(a);
    JoinHasNewline(b);
    assert a == [a[0]] + a[1..] && b == [b[0]] + b[1..];
    if |a| > 1 {
      FirstLineAgrees(a[0], Join(a[1..], "\n"), b[0], Join(b[1..], "\n"));
      JoinIsInjective(a[1..], b[1..]);
    }
  }

  /* ---- tagged lines ---- */

  ghost predicate AllTagged(tag: string, lines: seq<string>) {
    forall i :: 0 <= i < |lines| ==> StartsWith(lines[i], tag)
  }

  ghost predicate NoneTagged(tag: string, lines: seq<string>) {
    forall i :: 0 <= i < |lines| ==> !StartsWith(lines[i], tag)
  }

  lemma FirstIsTagged(tag: string, a: seq<string>, x: seq<string>)
    requires AllTagged(tag, a) && NoneTagged(tag, x)
    ensures a + x != [] && StartsWith((a + x)[0], tag) <==> a != []
    ensures a != [] ==> (a + x)[1..] == a[1..] + x
  {
  }

  /** Where the tagged lines end is seen from the lines. */
  lemma {:induction false} TaggedPartsAgree(tag: string, a: seq<string>, x: seq<string>, b: seq<string>, y: seq<string>)
    requires AllTagged(tag, a) && AllTagged(tag, b) && NoneTagged(tag, x) && NoneTagged(tag, y) && a + x == b + y
    ensures a == b && x == y
  {
    FirstIsTagged(tag, a, x);
    FirstIsTagged(tag, b, y);
    if a == [] {
      assert a + x == x && b + y == y;
    } else {
      TaggedPartsAgree(tag, a[1..], x, b[1..], y);
      assert a == [a[0]] + a[1..] && b == [b[0]] + b[1..] && (a + x)[0] == a[0] && (b + y)[0] == b[0];
    }
  }

  lemma LabelledIsTagged(tag: string, paths: seq<string>, other: string, k: nat)
    requires k < |tag| && k < |other| && tag[k] != other[k]
    ensures AllTagged(tag, Labelled(tag, paths)) && NoneTagged(other, Labelled(tag, paths))
  {
    var lines := Labelled(tag, paths);
    forall i | 0 <= i < |lines| ensures StartsWith(lines[i], tag) && !StartsWith(lines[i], other) {
      assert lines[i][..|tag|] == tag && lines[i][k] == tag[k];
      assert |other| <= |lines[i]| ==> lines[i][..|other|][k] == lines[i][k];
    }
  }

  lemma NoneTaggedConcat(tag: string, a: seq<string>, b: seq<string>)
    requires NoneTagged(tag, a) && NoneTagged(tag, b)
    ensures NoneTagged(tag, a + b)
  {
    hide StartsWith;
    forall i | 0 <= i < |a + b| ensures !StartsWith((a + b)[i], tag) {
      assert (a + b)[i] == if i < |a| then a[i] else b[i - |a|];
    }
  }

  lemma LabelledIsInjective(tag: string, a: seq<string>, b: seq<string>)
    requires Labelled(tag, a) == Labelled(tag, b)
    ensures a == b
  {
    var x, y := Labelled(tag, a), Labelled(tag, b);
    assert |x| == |y|;
    forall i | 0 <= i < |a| ensures a[i] == b[i] {
      assert x[i] == tag + a[i] && y[i] == tag + b[i];
      assert x[i][|tag|..] == a[i] && y[i][|tag|..] == b[i];
    }
  }

  /* ---- the lines of a status ---- */

  function Ignored(s: Status): seq<string> { Labelled("ignored:", s.ignored) }

  function FromRenamed(s: Status): seq<string> { Labelled("renamed:", RenameTexts(s.renamed)) + Ignored(s) }

  function FromDeleted(s: Status): seq<string> { Labelled("deleted:", s.deleted) + FromRenamed(s) }

  function FromUntracked(s: Status): seq<string> { Labelled("untracked:", s.untracked) + FromDeleted(s) }

  function FromDirty(s: Status): seq<string> { Labelled("dirty:", s.dirty) + FromUntracked(s) }

  function HeadName(head: Option<string>): string { if head.Some? then head.value else "-" }

  lemma DigestTextLines(head: Option<string>, s: Status)
    ensures DigestText(head, s) == Join(["head:" + HeadName(head)] + FromDirty(s), "\n")
  {
    hide Labelled;
    hide RenameTexts;
    hide Join;
    var d, u, x := Labelled("dirty:", s.dirty), Labelled("untracked:", s.untracked), Labelled("deleted:", s.deleted);
    var r, i := Labelled("renamed:", RenameTexts(s.renamed)), Labelled("ignored:", s.ignored);
    var h := ["head:" + HeadName(head)];
    assert h + d + u + x + r + i == h + (d + (u + (x + (r + i))));
  }

  /** None of the later lines has an earlier tag. */
  lemma LaterTags(s: Status)
    ensures NoneTagged("dirty:", FromUntracked(s)) && NoneTagged("untracked:", FromDeleted(s))
    ensures NoneTagged("deleted:", FromRenamed(s)) && NoneTagged("renamed:", Ignored(s))
  {
    var u, x := Labelled("untracked:", s.untracked), Labelled("deleted:", s.deleted);
    var r, i := Labelled("renamed:", RenameTexts(s.renamed)), Labelled("ignored:", s.ignored);
    LabelledIsTagged("untracked:", s.untracked, "dirty:", 0);
    LabelledIsTagged("deleted:", s.deleted, "dirty:", 1);
    LabelledIsTagged("deleted:", s.deleted, "untracked:", 0);
    LabelledIsTagged("renamed:", RenameTexts(s.renamed), "dirty:", 0);
    LabelledIsTagged("renamed:", RenameTexts(s.renamed), "untracked:", 0);
    LabelledIsTagged("renamed:", RenameTexts(s.renamed), "deleted:", 0);
    LabelledIsTagged("ignored:", s.ignored, "dirty:", 0);
    LabelledIsTagged("ignored:", s.ignored, "untracked:", 0);
    LabelledIsTagged("ignored:", s.ignored, "deleted:", 0);
    LabelledIsTagged("ignored:", s.ignored, "renamed:", 0);
    hide Labelled;
    hide NoneTagged;
    hide RenameTexts;
    NoneTaggedConcat("dirty:", r, i);
    NoneTaggedConcat("dirty:", x, r + i);
    NoneTaggedConcat("dirty:", u, x + (r + i));
    NoneTaggedConcat("untracked:", r, i);
    NoneTaggedConcat("untracked:", x, r + i);
    NoneTaggedConcat("deleted:", r, i);
  }

  lemma OwnTags(s: Status)
    ensures AllTagged("dirty:", Labelled("dirty:", s.dirty))
    ensures AllTagged("untracked:", Labelled("untracked:", s.untracked))
    ensures AllTagged("deleted:", Labelled("deleted:", s.deleted))
    ensures AllTagged("renamed:", Labelled("renamed:", RenameTexts(s.renamed)))
  {
    LabelledIsTagged("dirty:", s.dirty, "untracked:", 0);
    LabelledIsTagged("untracked:", s.untracked, "dirty:", 0);
    LabelledIsTagged("deleted:", s.deleted, "untracked:", 0);
    LabelledIsTagged("renamed:", RenameTexts(s.renamed), "dirty:", 0);
  }

  /** The lines after the head determine the five lists, renames up to their texts. */
  lemma LinesDetermineLists(a: Status, b: Status)
    requires FromDirty(a) == FromDirty(b)
    ensures a.dirty == b.dirty && a.untracked == b.untracked && a.deleted == b.deleted && a.ignored == b.ignored
    ensures RenameTexts(a.renamed) == RenameTexts(b.renamed)
  {
    LaterTags(a);
    LaterTags(b);
    OwnTags(a);
    OwnTags(b);
    hide Labelled;
    hide AllTagged;
    hide NoneTagged;
    hide RenameTexts;
    TaggedPartsAgree("dirty:", Labelled("dirty:", a.dirty), FromUntracked(a),
                     Labelled("dirty:", b.dirty), FromUntracked(b));
    TaggedPartsAgree("untracked:", Labelled("untracked:", a.untracked), FromDeleted(a),
                     Labelled("untracked:", b.untracked), FromDeleted(b));
    TaggedPartsAgree("deleted:", Labelled("deleted:", a.deleted), FromRenamed(a),
                     Labelled("deleted:", b.deleted), FromRenamed(b));
    TaggedPartsAgree("renamed:", Labelled("renamed:", RenameTexts(a.renamed)), Ignored(a),
                     Labelled("renamed:", RenameTexts(b.renamed)), Ignored(b));
    LabelledIsInjective("dirty:", a.dirty, b.dirty);
    LabelledIsInjective("untracked:", a.untracked, b.untracked);
    LabelledIsInjective("deleted:", a.deleted, b.deleted);
    LabelledIsInjective("renamed:", RenameTexts(a.renamed), RenameTexts(b.renamed));
    LabelledIsInjective("ignored:", a.ignored, b.ignored);
  }

  lemma LabelledIsPlain(tag: string, paths: seq<string>)
    requires OneLine(tag) && OneLineEach(paths)
    ensures OneLineEach(Labelled(tag, paths))
  {
    var lines := Labelled(tag, paths);
    forall i | 0 <= i < |lines| ensures OneLine(lines[i]) {
      assert lines[i] == tag + paths[i] && OneLine(paths[i]);
    }
  }

  lemma LinesArePlain(s: Status)
    requires Plain(s)
    ensures OneLineEach(FromDirty(s))
  {
    LabelledIsPlain("dirty:", s.dirty);
    LabelledIsPlain("untracked:", s.untracked);
    LabelledIsPlain("deleted:", s.deleted);
    LabelledIsPlain("ignored:", s.ignored);
    RenamesArePlain(s.renamed);
    LabelledIsPlain("renamed:", RenameTexts(s.renamed));
    hide Labelled;
    hide OneLine;
  }

  lemma RenamesArePlain(renames: seq<Rename>)
    requires forall i :: 0 <= i < |renames| ==> OneLine(renames[i].from) && OneLine(renames[i].to)
    ensures OneLineEach(RenameTexts(renames))
  {
  }

  /** Two statuses have the same digest text exactly when they have the same head name and the same lists,
    renames being compared by the text `from=>to`. */
  lemma DigestTextExactly(h: Option<string>, a: Status, k: Option<string>, b: Status)
    requires Plain(a) && Plain(b) && OneLine(HeadName(h)) && OneLine(HeadName(k))
    ensures DigestText(h, a) == DigestText(k, b) <==>
            && HeadName(h) == HeadName(k)
            && a.dirty == b.dirty && a.untracked == b.untracked && a.deleted == b.deleted && a.ignored == b.ignored
            && RenameTexts(a.renamed) == RenameTexts(b.renamed)
  {
    var x, y := ["head:" + HeadName(h)] + FromDirty(a), ["head:" + HeadName(k)] + FromDirty(b);
    DigestTextLines(h, a);
    DigestTextLines(k, b);
    LinesArePlain(a);
    LinesArePlain(b);
    hide DigestText;
    hide Plain;
    if DigestText(h, a) == DigestText(k, b) {
      assert OneLineEach(x) && OneLineEach(y) by { hide FromDirty; }
      JoinIsInjective(x, y);
      assert x[0] == "head:" + HeadName(h) && y[0] == "head:" + HeadName(k);
      assert x[0][5..] == HeadName(h) && y[0][5..] == HeadName(k);
      assert x[1..] == FromDirty(a) && y[1..] == FromDirty(b);
      LinesDetermineLists(a, b);
    }
  }

  /* ---- renames ---- */

  predicate NoDivider(s: string) {
    forall i :: 0 <= i < |s| - 1 ==> !(s[i] == '=' && s[i + 1] == '>')
  }

  /** A rename's text divides in one way only if its old name has no `=>`. */
  lemma RenameTextExactly(a: Rename, b: Rename)
    requires NoDivider(a.from) && NoDivider(b.from) && a.from + "=>" + a.to == b.from + "=>" + b.to
    ensures a == b
  {
    var s := a.from + "=>" + a.to;
    assert s[|a.from|] == '=' && s[|a.from| + 1] == '>' && s[|b.from|] == '=' && s[|b.from| + 1] == '>';
    DividerComesFirst(a.from, a.to, |b.from|);
    DividerComesFirst(b.from, b.to, |a.from|);
    assert a.from == s[..|a.from|] && b.from == s[..|b.from|];
    assert a.to == s[|a.from| + 2..] && b.to == s[|b.from| + 2..];
  }

  lemma DividerComesFirst(from: string, to: string, i: nat)
    requires NoDivider(from)
    requires var s := from + "=>" + to; i + 1 < |s| && s[i] == '=' && s[i + 1] == '>'
    ensures |from| <= i
  {
    var s := from + "=>" + to;
    assert forall j :: 0 <= j < |from| ==> s[j] == from[j];
    assert s[|from|] == '=';
  }

  /** Otherwise two statuses that differ can share one text, and so one digest. */
  lemma RenamesCanCollide(head: Option<string>)
    ensures var a := Status([], [], [], [Rename("a", "b=>c")], []);
            var b := Status([], [], [], [Rename("a=>b", "c")], []);
            a != b && DigestText(head, a) == DigestText(head, b)
  {
    var a, b := Rename("a", "b=>c"), Rename("a=>b", "c");
    assert |a.from| != |b.from|;
    assert a.from + "=>" + a.to == "a=>b=>c" && b.from + "=>" + b.to == "a=>b=>c";
    assert RenameTexts([a]) == [a.from + "=>" + a.to] && RenameTexts([b]) == [b.from + "=>" + b.to];
  }

  /** Statuses without newlines, and without `=>` in the old name of a rename, have one digest text only if
    they have the same lists. */
  lemma DigestTextTellsApart(h: Option<string>, a: Status, k: Option<string>, b: Status)
    requires Plain(a) && Plain(b) && OneLine(HeadName(h)) && OneLine(HeadName(k))
    requires forall i :: 0 <= i < |a.renamed| ==> NoDivider(a.renamed[i].from)
    requires forall i :: 0 <= i < |b.renamed| ==> NoDivider(b.renamed[i].from)
    ensures DigestText(h, a) == DigestText(k, b) <==> HeadName(h) == HeadName(k) && a == b
  {
    DigestTextExactly(h, a, k, b);
    hide DigestText;
    hide Plain;
    hide NoDivider;
    if RenameTexts(a.renamed) == RenameTexts(b.renamed) {
      assert |RenameTexts(a.renamed)| == |RenameTexts(b.renamed)|;
      forall i | 0 <= i < |a.renamed| ensures a.renamed[i] == b.renamed[i] {
        assert RenameTexts(a.renamed)[i] == RenameTexts(b.renamed)[i];
        RenameTextExactly(a.renamed[i], b.renamed[i]);
      }
    }
  }

  /* ---- the hash ---- */

  lemma HashUnfolds(front: seq<int>, byte: int)
    ensures HashOf([]) == FNV_OFFSET && HashOf(front + [byte]) == HashByte(HashOf(front), byte)
  {
    hide HashByte;
    assert (front + [byte])[..|front|] == front;
  }

  lemma HashConstants()
    ensures FNV_OFFSET == 14695981039346656037 && FNV_PRIME == 1099511628211
  {
  }

  /** The hash starts at the offset basis, and each byte is mixed in before the multiplication by the prime,
    modulo 2^64. */
  lemma HashGrows(front: seq<int>, byte: int)
    ensures HashOf([]) == FNV_OFFSET
    ensures HashOf(front + [byte]) == (HashOf(front) ^ ((byte % 0x100) as bv64)) * FNV_PRIME
  {
    HashUnfolds(front, byte);
    hide HashOf;
  }

  /* ---- UTF-8 ---- */

  predicate Continues(b: int) { 0x80 <= b < 0xC0 }

  /** A character's bytes give the character back: the lead byte says how many there are. */
  lemma BytesGiveCharBack(c: int)
    requires 0 <= c < 0x110000
    ensures var b := CharBytes(c);
            && |b| == (if c < 0x80 then 1 else if c < 0x800 then 2 else if c < 0x10000 then 3 else 4)
            && (forall i :: 0 < i < |b| ==> Continues(b[i]))
            && (|b| == 1 ==> b[0] < 0x80 && c == b[0])
            && (|b| == 2 ==> 0xC0 <= b[0] < 0xE0 && c == (b[0] - 0xC0) * 0x40 + (b[1] - 0x80))
            && (|b| == 3 ==> 0xE0 <= b[0] < 0xF0 && c == (b[0] - 0xE0) * 0x1000 + (b[1] - 0x80) * 0x40 + (b[2] - 0x80))
            && (|b| == 4 ==> 0xF0 <= b[0] < 0xF8 && c == (b[0] - 0xF0) * 0x40000 + (b[1] - 0x80) * 0x1000
                                                         + (b[2] - 0x80) * 0x40 + (b[3] - 0x80))
  {
    assert c / 0x1000 == c / 0x40 / 0x40 && c / 0x40000 == c / 0x1000 / 0x40;
  }

  /** The bytes of a text are those of its characters, in order. */
  lemma {:induction false} BytesOfConcat(a: string, b: string)
    ensures Bytes(a + b) == Bytes(a) + Bytes(b)
    ensures |Bytes(a)| == ByteLength(a)
  {
    if a == "" {
      assert a + b == b;
    } else {
      assert (a + b)[1..] == a[1..] + b;
      BytesOfConcat(a[1..], b);
    }
  }
}
