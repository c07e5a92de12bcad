/** Canonical working-tree status from `git status` output in Porcelain Format Version 1.

  Rust slices a line by UTF-8 byte offsets; `ByteWidth` keeps those offsets, and a slice that would
  cut a character in two is `None`, where the code panics. */
module Porcelain {
  import opened Ordering

  datatype Rename = Rename(from: string, to: string)

  datatype Status = Status(
    dirty: seq<string>,
    untracked: seq<string>,
    deleted: seq<string>,
    renamed: seq<Rename>,
    ignored: seq<string>)

  datatype Entry =
    | Dirty(path: string)
    | Untracked(path: string)
    | Deleted(path: string)
    | Renamed(rename: Rename)
    | Ignored(path: string)

  /** What a line amounts to; `Panics` when the status code cannot be sliced off. */
  datatype Reading = Accepted(entry: Entry) | Skipped | Panics

  /* ---- text ---- */

  function ByteWidth(c: char): nat {
    if c as int < 0x80 then 1 else if c as int < 0x800 then 2 else if c as int < 0x10000 then 3 else 4
  }

  function ByteLength(s: string): nat {
    if s == "" then 0 else ByteWidth(s[0]) + ByteLength(s[1..])
  }

  /** The characters before and after byte offset `n`, when that is a boundary within `s`. */
  function SplitAtByte(s: string, n: nat): Option<(string, string)> {
    if n == 0 then Some(("", s))
    else if s == "" || ByteWidth(s[0]) > n then None
    else match SplitAtByte(s[1..], n - ByteWidth(s[0]))
      case None => None
      case Some((front, back)) => Some(([s[0]] + front, back))
  }

  predicate IsWhitespace(c: char) {
    var n := c as int;
    9 <= n <= 13 || n == 0x20 || n == 0x85 || n == 0xA0 || n == 0x1680 || 0x2000 <= n <= 0x200A
    || n == 0x2028 || n == 0x2029 || n == 0x202F || n == 0x205F || n == 0x3000
  }

  predicate IsBlank(s: string) {
    forall i :: 0 <= i < |s| ==> IsWhitespace(s[i])
  }

  function TrimStart(s: string): string {
    if s != "" && IsWhitespace(s[0]) then TrimStart(s[1..]) else s
  }

  predicate StartsWith(s: string, prefix: string) {
    |prefix| <= |s| && s[..|prefix|] == prefix
  }

  /** Where the first ` -> ` starts. */
  function FindArrow(s: string): Option<nat> {
    if StartsWith(s, " -> ") then Some(0)
    else if s == "" then None
    else match FindArrow(s[1..]) case None => None case Some(i) => Some(i + 1)
  }

  lemma {:induction false} ArrowInside(s: string)
    ensures FindArrow(s).Some? ==> FindArrow(s).value + 4 <= |s|
  {
    if !StartsWith(s, " -> ") && s != "" {
      ArrowInside(s[1..]);
    }
  }

  function TrimQuotesStart(s: string): string {
    if s != "" && s[0] == '"' then TrimQuotesStart(s[1..]) else s
  }

  function TrimQuotesEnd(s: string): string {
    if s != "" && s[|s| - 1] == '"' then TrimQuotesEnd(s[..|s| - 1]) else s
  }

  function NormalizeGitPath(path: string): string {
    var trimmed := TrimQuotesEnd(TrimQuotesStart(path));
    seq(|trimmed|, i requires 0 <= i < |trimmed| => if trimmed[i] == '\\' then '/' else trimmed[i])
  }

  /** `str::lines`: split at newlines, one trailing carriage return dropped, no empty last line. */
  function Lines(raw: string): seq<string> {
    if raw == "" then [] else LinesFrom(raw)
  }

  function LinesFrom(raw: string): (lines: seq<string>)
    ensures lines != []
  {
    if raw == "" then [""]
    else if raw[0] == '\n' then if |raw| == 1 then [""] else [""] + LinesFrom(raw[1..])
    else
      var rest := LinesFrom(raw[1..]);
      if raw[0] == '\r' && rest[0] == "" && |raw| > 1 && raw[1] == '\n' then rest
      else [[raw[0]] + rest[0]] + rest[1..]
  }

  /* ---- one line ---- */

  function ReadCoded(code: string, payload: string): Reading {
    var x := if code == "" then '?' else code[0];
    var y := if |code| < 2 then '?' else code[1];
    if (x == 'R' || y == 'R') && FindArrow(payload).Some? then
      ArrowInside(payload);
      var i := FindArrow(payload).value;
      Accepted(Renamed(Rename(NormalizeGitPath(payload[..i]), NormalizeGitPath(payload[i + 4..]))))
    else if x == 'D' || y == 'D' then Accepted(Deleted(NormalizeGitPath(payload)))
    else if !IsBlank(code) then Accepted(Dirty(NormalizeGitPath(payload)))
    else Skipped
  }

  function ReadLine(line: string): Reading {
    if IsBlank(line) then Skipped
    else if StartsWith(line, "?? ") then Accepted(Untracked(NormalizeGitPath(line[3..])))
    else if StartsWith(line, "!! ") then Accepted(Ignored(NormalizeGitPath(line[3..])))
    else if ByteLength(line) < 4 then Skipped
    else match SplitAtByte(line, 2)
      case None => Panics
      case Some((code, _)) =>
        ReadCoded(code, match SplitAtByte(line, 3) case None => "" case Some((_, payload)) => TrimStart(payload))
  }

  /* ---- the whole output ---- */

  function Push(s: Status, e: Entry): Status {
    match e
    case Dirty(p) => s.(dirty := s.dirty + [p])
    case Untracked(p) => s.(untracked := s.untracked + [p])
    case Deleted(p) => s.(deleted := s.deleted + [p])
    case Renamed(r) => s.(renamed := s.renamed + [r])
    case Ignored(p) => s.(ignored := s.ignored + [p])
  }

  /** The five lists in the order of the lines. */
  function Collect(lines: seq<string>): Option<Status> {
    if lines == [] then Some(Status([], [], [], [], []))
    else match Collect(lines[..|lines| - 1])
      case None => None
      case Some(before) =>
        match ReadLine(lines[|lines| - 1])
        case Panics => None
        case Skipped => Some(before)
        case Accepted(e) => Some(Push(before, e))
  }

  predicate RenameLess(a: Rename, b: Rename) {
    StrLess(a.from, b.from) || (a.from == b.from && StrLess(a.to, b.to))
  }

  function Canonical(s: Status): Status {
    Status(SortDedup(StrLess, s.dirty), SortDedup(StrLess, s.untracked), SortDedup(StrLess, s.deleted),
           SortDedup(RenameLess, s.renamed), SortDedup(StrLess, s.ignored))
  }

  function Parse(lines: seq<string>): Option<Status> {
    match Collect(lines) case None => None case Some(s) => Some(Canonical(s))
  }

  /** `parse_porcelain_v1`: push line by line, then sort and dedup each list. */
  method ParsePorcelain(raw: string) returns (result: Option<Status>)
    ensures result == Parse(Lines(raw))
  {
    var lines := Lines(raw);
    var status := Status([], [], [], [], []);
    for i := 0 to |lines|
      invariant Collect(lines[..i]) == Some(status)
    {
      assert lines[..i + 1][..i] == lines[..i];
      match ReadLine(lines[i]) {
        case Panics =>
          PanicIsFinal(lines, i);
          return None;
        case Skipped =>
        case Accepted(entry) => status := Push(status, entry);
      }
    }
    assert lines[..|lines|] == lines;
    result := Some(Canonical(status));
  }

  lemma {:induction false} PanicIsFinal(lines: seq<string>, i: nat)
    requires i < |lines| && ReadLine(lines[i]).Panics?
    ensures Collect(lines).None?
  {
    if i < |lines| - 1 {
      PanicIsFinal(lines[..|lines| - 1], i);
    }
  }

  /* ---- every accepted line is in exactly one list ---- */

  predicate Listed(s: Status, e: Entry) {
    match e
    case Dirty(p) => p in s.dirty
    case Untracked(p) => p in s.untracked
    case Deleted(p) => p in s.deleted
    case Renamed(r) => r in s.renamed
    case Ignored(p) => p in s.ignored
  }

  lemma PushLists(s: Status, e: Entry, x: Entry)
    ensures Listed(Push(s, e), x) <==> Listed(s, x) || x == e
  {
  }

  /** The collected lists hold exactly the entries of the accepted lines, each in its own list. */
  lemma {:induction false} CollectListsExactly(lines: seq<string>, e: Entry)
    ensures Collect(lines).None? <==> exists l :: l in lines && ReadLine(l).Panics?
    ensures Collect(lines).Some? ==>
              (Listed(Collect(lines).value, e) <==> exists l :: l in lines && ReadLine(l) == Accepted(e))
  {
    hide ReadLine;
    hide Listed;
    hide Push;
    if lines == [] {
      NothingListed(e);
    } else {
      var front, last := lines[..|lines| - 1], lines[|lines| - 1];
      assert lines == front + [last];
      assert last in lines;
      CollectListsExactly(front, e);
      if Collect(front).Some? && ReadLine(last).Accepted? {
        PushLists(Collect(front).value, ReadLine(last).entry, e);
      }
    }
  }

  lemma NothingListed(e: Entry)
    ensures !Listed(Status([], [], [], [], []), e)
  {
  }

  lemma RenameLessIsStrictTotalOrder()
    ensures StrictTotalOrder(RenameLess)
  {
    StrLessIsStrictTotalOrder();
  }

  lemma CanonicalLists(s: Status, e: Entry)
    ensures Listed(Canonical(s), e) <==> Listed(s, e)
  {
    StrLessIsStrictTotalOrder();
    RenameLessIsStrictTotalOrder();
    SortDedupCanonical(StrLess, s.dirty);
    SortDedupCanonical(StrLess, s.untracked);
    SortDedupCanonical(StrLess, s.deleted);
    SortDedupCanonical(RenameLess, s.renamed);
    SortDedupCanonical(StrLess, s.ignored);
  }

  /** The parsed lists hold exactly the entries of the accepted lines, each in its own list ... */
  lemma ParseListsExactly(lines: seq<string>, e: Entry)
    ensures Parse(lines).None? <==> exists l :: l in lines && ReadLine(l).Panics?
    ensures Parse(lines).Some? ==>
              (Listed(Parse(lines).value, e) <==> exists l :: l in lines && ReadLine(l) == Accepted(e))
  {
    hide ReadLine;
    hide Listed;
    hide Canonical;
    CollectListsExactly(lines, e);
    if Parse(lines).Some? {
      CanonicalLists(Collect(lines).value, e);
    }
  }

  lemma RenamesIncrease(s: Status)
    ensures var renamed := SortDedup(RenameLess, s.renamed);
            forall i, j :: 0 <= i < j < |renamed| ==>
              || StrLess(renamed[i].from, renamed[j].from)
              || (renamed[i].from == renamed[j].from && StrLess(renamed[i].to, renamed[j].to))
  {
    RenameLessIsStrictTotalOrder();
    SortDedupCanonical(RenameLess, s.renamed);
    hide SortDedup;
    hide StrLess;
    var renamed := SortDedup(RenameLess, s.renamed);
    forall i, j | 0 <= i < j < |renamed| ensures RenameLess(renamed[i], renamed[j]) {}
  }

  /** ... and each list is strictly increasing, renames by old and then by new name. */
  lemma ParsedListsIncrease(lines: seq<string>)
    requires Parse(lines).Some?
    ensures var s := Parse(lines).value;
            && StrictlySorted(StrLess, s.dirty) && StrictlySorted(StrLess, s.untracked)
            && StrictlySorted(StrLess, s.deleted)
            && StrictlySorted(RenameLess, s.renamed) && StrictlySorted(StrLess, s.ignored)
            && forall i, j :: 0 <= i < j < |s.renamed| ==>
                 || StrLess(s.renamed[i].from, s.renamed[j].from)
                 || (s.renamed[i].from == s.renamed[j].from && StrLess(s.renamed[i].to, s.renamed[j].to))
  {
    RenamesIncrease(Collect(lines).value);
    hide Collect;
    hide SortDedup;
    hide StrictlySorted;
    var s := Collect(lines).value;
    StrLessIsStrictTotalOrder();
    RenameLessIsStrictTotalOrder();
    SortDedupCanonical(StrLess, s.dirty);
    SortDedupCanonical(StrLess, s.untracked);
    SortDedupCanonical(StrLess, s.deleted);
    SortDedupCanonical(RenameLess, s.renamed);
    SortDedupCanonical(StrLess, s.ignored);
  }

  /* ---- the digest ---- */

  /** UTF-8. */
  function Bytes(s: string): seq<int> {
    if s == "" then [] else CharBytes(s[0] as int) + Bytes(s[1..])
  }

  function CharBytes(c: int): seq<int>
    requires 0 <= c
  {
    if c < 0x80 then [c]
    else if c < 0x800 then [0xC0 + c / 0x40, 0x80 + c % 0x40]
    else if c < 0x10000 then [0xE0 + c / 0x1000, 0x80 + c / 0x40 % 0x40, 0x80 + c % 0x40]
    else [0xF0 + c / 0x40000, 0x80 + c / 0x1000 % 0x40, 0x80 + c / 0x40 % 0x40, 0x80 + c % 0x40]
  }

  const FNV_OFFSET: bv64 := 0xcbf29ce484222325
  const FNV_PRIME: bv64 := 0x100000001b3

  function HashByte(hash: bv64, byte: int): bv64 {
    (hash ^ ((byte % 0x100) as bv64)) * FNV_PRIME
  }

  function HashOf(bytes: seq<int>): bv64 {
    if bytes == [] then FNV_OFFSET else HashByte(HashOf(bytes[..|bytes| - 1]), bytes[|bytes| - 1])
  }

  method StableHash(bytes: seq<int>) returns (hash: bv64)
    ensures hash == HashOf(bytes)
  {
    hash := FNV_OFFSET;
    for i := 0 to |bytes|
      invariant hash == HashOf(bytes[..i])
    {
      assert bytes[..i + 1][..i] == bytes[..i];
      hash := HashByte(hash, bytes[i]);
    }
    assert bytes[..|bytes|] == bytes;
  }

  function Labelled(tag: string, paths: seq<string>): seq<string> {
    seq(|paths|, i requires 0 <= i < |paths| => tag + paths[i])
  }

  function RenameTexts(renames: seq<Rename>): seq<string> {
    seq(|renames|, i requires 0 <= i < |renames| => renames[i].from + "=>" + renames[i].to)
  }

  function DigestText(head: Option<string>, s: Status): string {
    Join(["head:" + (if head.Some? then head.value else "-")]
         + Labelled("dirty:", s.dirty) + Labelled("untracked:", s.untracked) + Labelled("deleted:", s.deleted)
         + Labelled("renamed:", RenameTexts(s.renamed)) + Labelled("ignored:", s.ignored), "\n")
  }

  /** `working_tree_digest`, up to its textual form. */
  method WorkingTreeDigest(head: Option<string>, s: Status) returns (digest: bv64)
    ensures digest == HashOf(Bytes(DigestText(head, s)))
  {
    digest := StableHash(Bytes(DigestText(head, s)));
  }

  /* ---- order and repetition of lines do not matter ---- */

  lemma SameEntriesSameStatus(a: Status, b: Status)
    requires forall e :: Listed(a, e) <==> Listed(b, e)
    ensures Canonical(a) == Canonical(b)
  {
    StrLessIsStrictTotalOrder();
    RenameLessIsStrictTotalOrder();
    forall p ensures p in a.dirty <==> p in b.dirty { assert Listed(a, Dirty(p)) <==> Listed(b, Dirty(p)); }
    forall p ensures p in a.untracked <==> p in b.untracked {
      assert Listed(a, Untracked(p)) <==> Listed(b, Untracked(p));
    }
    forall p ensures p in a.deleted <==> p in b.deleted { assert Listed(a, Deleted(p)) <==> Listed(b, Deleted(p)); }
    forall r ensures r in a.renamed <==> r in b.renamed { assert Listed(a, Renamed(r)) <==> Listed(b, Renamed(r)); }
    forall p ensures p in a.ignored <==> p in b.ignored { assert Listed(a, Ignored(p)) <==> Listed(b, Ignored(p)); }
    SortDedupIgnoresOrder(StrLess, a.dirty, b.dirty);
    SortDedupIgnoresOrder(StrLess, a.untracked, b.untracked);
    SortDedupIgnoresOrder(StrLess, a.deleted, b.deleted);
    SortDedupIgnoresOrder(RenameLess, a.renamed, b.renamed);
    SortDedupIgnoresOrder(StrLess, a.ignored, b.ignored);
  }

  /** The same lines, in any order and however often, give the same lists and the same digest text. */
  lemma LineOrderIsIrrelevant(a: seq<string>, b: seq<string>, head: Option<string>)
    requires forall l :: l in a <==> l in b
    ensures Parse(a) == Parse(b)
    ensures Parse(a).Some? ==> DigestText(head, Parse(a).value) == DigestText(head, Parse(b).value)
  {
    CollectListsExactly(a, Dirty(""));
    CollectListsExactly(b, Dirty(""));
    if Parse(a).Some? {
      forall e ensures Listed(Collect(a).value, e) <==> Listed(Collect(b).value, e) {
        CollectListsExactly(a, e);
        CollectListsExactly(b, e);
      }
      SameEntriesSameStatus(Collect(a).value, Collect(b).value);
    }
  }

  function DirtyPathCount(s: Status): nat {
    |s.dirty| + |s.untracked| + |s.deleted| + |s.renamed|
  }

  lemma CountsAllButIgnored(s: Status)
    ensures DirtyPathCount(s) > 0 <==> exists e: Entry :: Listed(s, e) && !e.Ignored?
  {
    if DirtyPathCount(s) > 0 {
      var e := if s.dirty != [] then Dirty(s.dirty[0]) else if s.untracked != [] then Untracked(s.untracked[0])
               else if s.deleted != [] then Deleted(s.deleted[0]) else Renamed(s.renamed[0]);
      assert Listed(s, e);
    }
  }

  /** The tree counts as dirty exactly when some line reports more than an ignored file. */
  lemma DirtyExactly(lines: seq<string>)
    requires Parse(lines).Some?
    ensures DirtyPathCount(Parse(lines).value) > 0 <==>
            exists l :: l in lines && ReadLine(l).Accepted? && !ReadLine(l).entry.Ignored?
  {
    hide ReadLine;
    hide Parse;
    hide Listed;
    hide DirtyPathCount;
    var s := Parse(lines).value;
    forall e ensures Listed(s, e) <==> exists l :: l in lines && ReadLine(l) == Accepted(e) {
      ParseListsExactly(lines, e);
    }
    CountsAllButIgnored(s);
    forall l | l in lines && ReadLine(l).Accepted? && !ReadLine(l).entry.Ignored? ensures DirtyPathCount(s) > 0 {
      assert Listed(s, ReadLine(l).entry);
    }
  }
}
