/** Reading back what a status output says: which raw lines give which entries, which are skipped, and
  that no line is lost.

  An `Item` is a raw line in its parts.  Every accepted line is the rendering of an item, and every
  rendering is read as the entry that the item reports. */
module PorcelainText {
  import opened Ordering
  import opened Porcelain

  /* ---- lines ---- */

  /** The lines with their ends, in a row. */
  function Text(lines: seq<string>, ends: seq<string>): string
    requires |lines| == |ends|
  {
    if lines == [] then "" else lines[0] + ends[0] + Text(lines[1..], ends[1..])
  }

  /** A line ends in a newline, with or without a carriage return before it; the last one may end with the
    text, if it is not empty. */
  predicate Terminated(line: string, end: string, last: bool) {
    && '\n' !in line
    && (end == "\r\n" || (end == "\n" && (line == "" || line[|line| - 1] != '\r')) || (end == "" && last && line != ""))
  }

  ghost predicate AllTerminated(lines: seq<string>, ends: seq<string>) {
    |lines| == |ends| && forall i :: 0 <= i < |lines| ==> Terminated(lines[i], ends[i], i == |lines| - 1)
  }

  lemma {:induction false} FirstLine(line: string, end: string, rest: string)
    requires Terminated(line, end, rest == "") && (end == "" ==> rest == "")
    ensures LinesFrom(line + end + rest) == [line] + Lines(rest)
  {
    var raw := line + end + rest;
    if line == "" {
      if end == "\r\n" {
        assert raw[0] == '\r' && raw[1..] == "\n" + rest;
        assert (("\n" + rest)[1..]) == rest;
      } else {
        assert raw == "\n" + rest && raw[1..] == rest;
      }
    } else {
      assert raw[0] == line[0] && raw[1..] == line[1..] + end + rest;
      if |line| == 1 && end == "" {
        assert raw[1..] == "";
      } else {
        assert Terminated(line[1..], end, rest == "");
        FirstLine(line[1..], end, rest);
      }
      assert [line[0]] + line[1..] == line;
    }
  }

  /** Splitting gives the lines back. */
  lemma {:induction false} LinesOfText(lines: seq<string>, ends: seq<string>)
    requires AllTerminated(lines, ends)
    ensures Lines(Text(lines, ends)) == lines
  {
    if lines != [] {
      var rest := Text(lines[1..], ends[1..]);
      assert Terminated(lines[0], ends[0], 0 == |lines| - 1);
      assert AllTerminated(lines[1..], ends[1..]) by {
        forall i | 0 <= i < |lines| - 1 ensures Terminated(lines[1..][i], ends[1..][i], i == |lines| - 2) {
          assert Terminated(lines[i + 1], ends[i + 1], i + 1 == |lines| - 1);
        }
      }
      LinesOfText(lines[1..], ends[1..]);
      TextIsEmpty(lines[1..], ends[1..]);
      FirstLine(lines[0], ends[0], rest);
    }
  }

  lemma TextIsEmpty(lines: seq<string>, ends: seq<string>)
    requires AllTerminated(lines, ends)
    ensures Text(lines, ends) == "" <==> lines == []
  {
    if lines != [] {
      assert Terminated(lines[0], ends[0], 0 == |lines| - 1);
    }
  }

  lemma {:induction false} CutLine(raw: string) returns (line: string, end: string, rest: string)
    requires raw != ""
    ensures raw == line + end + rest && |rest| < |raw|
    ensures Terminated(line, end, rest == "") && (end == "" ==> rest == "")
  {
    if raw[0] == '\n' {
      line, end, rest := "", "\n", raw[1..];
    } else if raw[0] == '\r' && |raw| > 1 && raw[1] == '\n' {
      line, end, rest := "", "\r\n", raw[2..];
    } else if |raw| == 1 {
      line, end, rest := raw, "", "";
    } else {
      line, end, rest := CutLine(raw[1..]);
      line := [raw[0]] + line;
    }
  }

  /** Every text consists of its lines and their ends: none is lost, and nothing else is. */
  lemma {:induction false} TextOfLines(raw: string) returns (ends: seq<string>)
    ensures AllTerminated(Lines(raw), ends) && raw == Text(Lines(raw), ends)
    decreases |raw|
  {
    if raw == "" {
      ends := [];
    } else {
      var line, end, rest := CutLine(raw);
      FirstLine(line, end, rest);
      var others := TextOfLines(rest);
      ends := [end] + others;
      assert Lines(raw)[1..] == Lines(rest) && ends[1..] == others;
      forall i | 0 <= i < |Lines(raw)| ensures Terminated(Lines(raw)[i], ends[i], i == |Lines(raw)| - 1) {
        if i > 0 {
          assert Terminated(Lines(rest)[i - 1], others[i - 1], i - 1 == |Lines(rest)| - 1);
        } else {
          TextIsEmpty(Lines(rest), others);
        }
      }
    }
  }

  /* ---- paths ---- */

  predicate OnlyQuotes(s: string) {
    forall i :: 0 <= i < |s| ==> s[i] == '"'
  }

  predicate Bare(s: string) {
    s == "" || (s[0] != '"' && s[|s| - 1] != '"')
  }

  /** Backslashes turned into slashes. */
  predicate Turned(s: string, path: string) {
    |s| == |path| && forall i :: 0 <= i < |s| ==> path[i] == if s[i] == '\\' then '/' else s[i]
  }

  /** The raw path, without the quotes around it and with its backslashes turned. */
  ghost predicate Shows(raw: string, path: string) {
    exists before, core, after :: Quoted(raw, before, core, after) && Turned(core, path)
  }

  predicate Quoted(raw: string, before: string, core: string, after: string) {
    raw == before + core + after && OnlyQuotes(before) && OnlyQuotes(after) && Bare(core)
  }

  lemma {:induction false} TrimmedStart(before: string, s: string)
    requires OnlyQuotes(before) && (s == "" || s[0] != '"')
    ensures TrimQuotesStart(before + s) == s
  {
    if before == "" {
      assert before + s == s;
    } else {
      assert (before + s)[1..] == before[1..] + s;
      TrimmedStart(before[1..], s);
    }
  }

  lemma {:induction false} TrimmedEnd(s: string, after: string)
    requires OnlyQuotes(after) && (s == "" || s[|s| - 1] != '"')
    ensures TrimQuotesEnd(s + after) == s
  {
    if after == "" {
      assert s + after == s;
    } else {
      assert (s + after)[..|s + after| - 1] == s + after[..|after| - 1];
      TrimmedEnd(s, after[..|after| - 1]);
    }
  }

  lemma {:induction false} QuotesAtStart(s: string) returns (before: string)
    ensures OnlyQuotes(before) && s == before + TrimQuotesStart(s)
    ensures TrimQuotesStart(s) == "" || TrimQuotesStart(s)[0] != '"'
  {
    if s != "" && s[0] == '"' {
      before := QuotesAtStart(s[1..]);
      before := "\"" + before;
    } else {
      before := "";
    }
  }

  lemma {:induction false} QuotesAtEnd(s: string) returns (after: string)
    ensures OnlyQuotes(after) && s == TrimQuotesEnd(s) + after
    ensures TrimQuotesEnd(s) == "" || TrimQuotesEnd(s)[|TrimQuotesEnd(s)| - 1] != '"'
  {
    if s != "" && s[|s| - 1] == '"' {
      after := QuotesAtEnd(s[..|s| - 1]);
      after := after + "\"";
      assert s == s[..|s| - 1] + "\"";
    } else {
      after := "";
    }
  }

  lemma TrimsTo(raw: string, before: string, core: string, after: string)
    requires Quoted(raw, before, core, after)
    ensures TrimQuotesEnd(TrimQuotesStart(raw)) == core
  {
    if core == "" {
      assert raw == (before + after) + "";
      TrimmedStart(before + after, "");
    } else {
      assert raw == before + (core + after);
      TrimmedStart(before, core + after);
      TrimmedEnd(core, after);
    }
  }

  /** A raw path shows exactly its normal form. */
  lemma NormalFormIsShown(raw: string, path: string)
    ensures path == NormalizeGitPath(raw) <==> Shows(raw, path)
  {
    var before := QuotesAtStart(raw);
    var after := QuotesAtEnd(TrimQuotesStart(raw));
    var core := TrimQuotesEnd(TrimQuotesStart(raw));
    assert TrimQuotesStart(raw) == core + after;
    assert core != "" ==> core[0] == TrimQuotesStart(raw)[0];
    assert Quoted(raw, before, core, after);
    assert Turned(core, NormalizeGitPath(raw));
    if Shows(raw, path) {
      var b, c, a :| Quoted(raw, b, c, a) && Turned(c, path);
      TrimsTo(raw, b, c, a);
      assert path == NormalizeGitPath(raw);
    }
  }

  /* ---- lines by their parts ---- */

  /** `code` takes two bytes and `gap` one; `wide` is a character after the code that takes more, so that no
    path can be sliced off. */
  datatype Item =
    | NewItem(path: string)
    | IgnoredItem(path: string)
    | CodedItem(code: string, gap: char, blanks: string, path: string)
    | MovedItem(code: string, gap: char, blanks: string, from: string, to: string)
    | CutItem(code: string, wide: char, rest: string)

  function Render(item: Item): string {
    match item
    case NewItem(path) => "?? " + path
    case IgnoredItem(path) => "!! " + path
    case CodedItem(code, gap, blanks, path) => code + [gap] + blanks + path
    case MovedItem(code, gap, blanks, from, to) => code + [gap] + blanks + (from + " -> " + to)
    case CutItem(code, wide, rest) => code + [wide] + rest
  }

  /** One of the two status letters. */
  predicate Letter(code: string, c: char) {
    (code != "" && code[0] == c) || (|code| > 1 && code[1] == c)
  }

  predicate IsArrow(s: string, i: nat) {
    i + 4 <= |s| && s[i..i + 4] == " -> "
  }

  predicate NoArrowBefore(s: string, n: nat) {
    forall i :: 0 <= i < n ==> !IsArrow(s, i)
  }

  /** Neither an untracked nor an ignored line, with a code that says something. */
  predicate Tracked(code: string, after: string) {
    && ByteLength(code) == 2 && !IsBlank(code)
    && !StartsWith(code + after, "?? ") && !StartsWith(code + after, "!! ")
  }

  predicate Proper(item: Item) {
    match item
    case NewItem(_) => true
    case IgnoredItem(_) => true
    case CodedItem(code, gap, blanks, path) =>
      && Tracked(code, [gap]) && ByteWidth(gap) == 1 && IsBlank(blanks) && (path == "" || !IsWhitespace(path[0]))
      && blanks + path != "" && (Letter(code, 'R') ==> NoArrowBefore(path, |path|))
    case MovedItem(code, gap, blanks, from, to) =>
      && Tracked(code, [gap]) && ByteWidth(gap) == 1 && IsBlank(blanks) && from != "" && !IsWhitespace(from[0])
      && Letter(code, 'R') && NoArrowBefore(from + " -> " + to, |from|)
    case CutItem(code, wide, _) => Tracked(code, [wide]) && ByteWidth(wide) > 1
  }

  /** The entry that an item reports, each in its own list. */
  ghost predicate Reports(item: Item, e: Entry) {
    match item
    case NewItem(path) => e.Untracked? && Shows(path, e.path)
    case IgnoredItem(path) => e.Ignored? && Shows(path, e.path)
    case CodedItem(code, _, _, path) =>
      (if Letter(code, 'D') then e.Deleted? else e.Dirty?) && Shows(path, EntryPath(e))
    case MovedItem(_, _, _, from, to) => e.Renamed? && Shows(from, e.rename.from) && Shows(to, e.rename.to)
    case CutItem(code, _, _) => e == if Letter(code, 'D') then Deleted("") else Dirty("")
  }

  function EntryPath(e: Entry): string {
    match e
    case Dirty(p) => p
    case Untracked(p) => p
    case Deleted(p) => p
    case Renamed(r) => r.to
    case Ignored(p) => p
  }

  /** The characters of the Unicode property White_Space. */
  const WHITE_SPACE: set<int> :=
    {0x09, 0x0A, 0x0B, 0x0C, 0x0D, 0x20, 0x85, 0xA0, 0x1680, 0x2000, 0x2001, 0x2002, 0x2003, 0x2004, 0x2005,
     0x2006, 0x2007, 0x2008, 0x2009, 0x200A, 0x2028, 0x2029, 0x202F, 0x205F, 0x3000}

  lemma WhitespaceExactly(c: char)
    ensures IsWhitespace(c) <==> c as int in WHITE_SPACE
  {
  }

  /* ---- slicing by bytes ---- */

  lemma {:induction false} SplitIsExact(front: string, back: string)
    ensures SplitAtByte(front + back, ByteLength(front)) == Some((front, back))
  {
    if front == "" {
      assert front + back == back;
    } else {
      assert (front + back)[1..] == front[1..] + back;
      SplitIsExact(front[1..], back);
      assert [front[0]] + front[1..] == front;
    }
  }

  lemma {:induction false} SplitIsSound(s: string, n: nat)
    ensures SplitAtByte(s, n).Some? ==>
              var (front, back) := SplitAtByte(s, n).value; s == front + back && ByteLength(front) == n
  {
    if n > 0 && s != "" && ByteWidth(s[0]) <= n {
      SplitIsSound(s[1..], n - ByteWidth(s[0]));
    }
  }

  /** A slice exists exactly when some front part takes that many bytes. */
  lemma SplitMeans(s: string, n: nat, front: string, back: string)
    ensures SplitAtByte(s, n) == Some((front, back)) <==> s == front + back && ByteLength(front) == n
  {
    SplitIsSound(s, n);
    if s == front + back && ByteLength(front) == n {
      SplitIsExact(front, back);
    }
  }

  lemma {:induction false} BytesAdd(a: string, b: string)
    ensures ByteLength(a + b) == ByteLength(a) + ByteLength(b)
  {
    if a == "" {
      assert a + b == b;
    } else {
      assert (a + b)[1..] == a[1..] + b;
      BytesAdd(a[1..], b);
    }
  }

  lemma {:induction false} TrimmedBlanks(blanks: string, s: string)
    requires IsBlank(blanks) && (s == "" || !IsWhitespace(s[0]))
    ensures TrimStart(blanks + s) == s
  {
    if blanks == "" {
      assert blanks + s == s;
    } else {
      assert (blanks + s)[1..] == blanks[1..] + s && IsWhitespace((blanks + s)[0]);
      TrimmedBlanks(blanks[1..], s);
    }
  }

  lemma {:induction false} BlanksBefore(s: string) returns (blanks: string)
    ensures IsBlank(blanks) && s == blanks + TrimStart(s)
    ensures TrimStart(s) == "" || !IsWhitespace(TrimStart(s)[0])
  {
    if s != "" && IsWhitespace(s[0]) {
      blanks := BlanksBefore(s[1..]);
      blanks := [s[0]] + blanks;
    } else {
      blanks := "";
    }
  }

  lemma ArrowShifts(s: string)
    requires s != ""
    ensures forall i :: 0 < i ==> (IsArrow(s, i) <==> IsArrow(s[1..], i - 1))
    ensures StartsWith(s, " -> ") <==> IsArrow(s, 0)
  {
    forall i | 0 < i ensures IsArrow(s, i) <==> IsArrow(s[1..], i - 1) {
      if i + 4 <= |s| {
        assert s[i..i + 4] == s[1..][i - 1..i + 3];
      }
    }
  }

  /** The arrow that is found is the first one. */
  lemma {:induction false} ArrowIsFirst(s: string)
    ensures match FindArrow(s)
            case None => NoArrowBefore(s, |s|)
            case Some(n) => IsArrow(s, n) && NoArrowBefore(s, n)
  {
    if s != "" {
      ArrowShifts(s);
      hide IsArrow;
      hide StartsWith;
      if !IsArrow(s, 0) {
        ArrowIsFirst(s[1..]);
        assert FindArrow(s) == match FindArrow(s[1..]) case None => None case Some(i) => Some(i + 1);
      }
    }
  }

  lemma ArrowAt(s: string, n: nat)
    requires IsArrow(s, n) && NoArrowBefore(s, n)
    ensures FindArrow(s) == Some(n)
  {
    ArrowIsFirst(s);
  }

  lemma NoArrow(s: string)
    requires NoArrowBefore(s, |s|)
    ensures FindArrow(s) == None
  {
    ArrowIsFirst(s);
  }

  /* ---- a line is read as its item reports ---- */

  lemma {:induction false} NoFewerBytes(s: string)
    ensures ByteLength(s) >= |s|
  {
    if s != "" {
      NoFewerBytes(s[1..]);
    }
  }

  /** Two letters, or one character of two bytes. */
  lemma CodeIsShort(code: string)
    requires ByteLength(code) == 2
    ensures |code| == 2 || (|code| == 1 && ByteWidth(code[0]) == 2)
  {
    NoFewerBytes(code);
    if |code| == 1 {
      assert code[1..] == "";
    }
  }

  /** What a coded line amounts to, by its letters and its payload. */
  lemma CodedMeans(code: string, payload: string, e: Entry)
    requires !IsBlank(code)
    ensures Letter(code, 'R') && FindArrow(payload).Some? ==>
              var i := FindArrow(payload).value;
              && i + 4 <= |payload|
              && (ReadCoded(code, payload) == Accepted(e) <==>
                    e.Renamed? && Shows(payload[..i], e.rename.from) && Shows(payload[i + 4..], e.rename.to))
    ensures !(Letter(code, 'R') && FindArrow(payload).Some?) ==>
              (ReadCoded(code, payload) == Accepted(e) <==>
                 (if Letter(code, 'D') then e.Deleted? else e.Dirty?) && Shows(payload, EntryPath(e)))
  {
    ArrowInside(payload);
    NormalFormIsShown(payload, EntryPath(e));
    if FindArrow(payload).Some? && e.Renamed? {
      var i := FindArrow(payload).value;
      NormalFormIsShown(payload[..i], e.rename.from);
      NormalFormIsShown(payload[i + 4..], e.rename.to);
    }
    hide NormalizeGitPath;
    hide Shows;
    hide FindArrow;
    hide IsBlank;
  }

  lemma NotMarked(code: string, c: char, rest: string, mark: string)
    requires ByteLength(code) == 2 && (mark == "?? " || mark == "!! ") && !StartsWith(code + [c], mark)
    ensures !StartsWith(code + [c] + rest, mark)
  {
    CodeIsShort(code);
    var line := code + [c] + rest;
    assert |code| == 2 ==> line[..3] == code + [c];
    assert line[0] == code[0];
  }

  lemma NotBlank(code: string, rest: string)
    requires !IsBlank(code)
    ensures !IsBlank(code + rest)
  {
    var i :| 0 <= i < |code| && !IsWhitespace(code[i]);
    assert (code + rest)[i] == code[i];
  }

  /** How a tracked line is sliced. */
  lemma TrackedSlices(code: string, c: char, rest: string)
    requires ByteLength(code) == 2 && (ByteWidth(c) == 1 ==> rest != "")
    ensures var line := code + [c] + rest;
            && ByteLength(line) >= 4 && SplitAtByte(line, 2) == Some((code, [c] + rest))
            && SplitAtByte(line, 3) == if ByteWidth(c) == 1 then Some((code + [c], rest)) else None
  {
    var line := code + [c] + rest;
    assert line == code + ([c] + rest);
    BytesAdd(code, [c] + rest);
    BytesAdd([c], rest);
    BytesAdd(code, [c]);
    NoFewerBytes(rest);
    assert [c][1..] == "";
    assert ByteLength([c]) == ByteWidth(c);
    SplitIsExact(code, [c] + rest);
    hide ByteWidth;
    hide SplitAtByte;
    if ByteWidth(c) == 1 {
      SplitIsExact(code + [c], rest);
    } else {
      NoSliceInside(code, c, rest);
    }
  }

  lemma TrackedLine(code: string, c: char, rest: string)
    requires Tracked(code, [c]) && (ByteWidth(c) == 1 ==> rest != "")
    ensures ReadLine(code + [c] + rest)
            == ReadCoded(code, if ByteWidth(c) == 1 then TrimStart(rest) else "")
  {
    NotMarked(code, c, rest, "?? ");
    NotMarked(code, c, rest, "!! ");
    assert code + [c] + rest == code + ([c] + rest);
    NotBlank(code, [c] + rest);
    TrackedSlices(code, c, rest);
    hide ReadCoded;
    hide IsBlank;
    hide SplitAtByte;
    hide ByteLength;
    hide ByteWidth;
    hide StartsWith;
    hide TrimStart;
  }

  lemma {:induction false} NoSliceInside(code: string, c: char, rest: string)
    requires ByteWidth(c) > 1
    ensures SplitAtByte(code + [c] + rest, ByteLength(code) + 1) == None
  {
    var line := code + [c] + rest;
    if code != "" {
      assert line[1..] == code[1..] + [c] + rest;
      NoSliceInside(code[1..], c, rest);
    }
  }

  lemma CodedIsRead(item: Item, e: Entry)
    requires item.CodedItem? && Proper(item)
    ensures ReadLine(Render(item)) == Accepted(e) <==> Reports(item, e)
  {
    var CodedItem(code, gap, blanks, path) := item;
    var rest := blanks + path;
    assert Render(item) == code + [gap] + rest;
    TrackedLine(code, gap, rest);
    TrimmedBlanks(blanks, path);
    CodedMeans(code, path, e);
    if Letter(code, 'R') {
      NoArrow(path);
    }
    hide ReadLine;
    hide ReadCoded;
    hide FindArrow;
    hide Shows;
    hide Tracked;
    hide TrimStart;
  }

  lemma MovedIsRead(item: Item, e: Entry)
    requires item.MovedItem? && Proper(item)
    ensures ReadLine(Render(item)) == Accepted(e) <==> Reports(item, e)
  {
    var MovedItem(code, gap, blanks, from, to) := item;
    var payload := from + " -> " + to;
    var rest := blanks + payload;
    assert Render(item) == code + [gap] + rest;
    TrackedLine(code, gap, rest);
    TrimmedBlanks(blanks, payload);
    assert payload[|from|..|from| + 4] == " -> ";
    ArrowAt(payload, |from|);
    assert payload[..|from|] == from && payload[|from| + 4..] == to;
    CodedMeans(code, payload, e);
    hide ReadLine;
    hide ReadCoded;
    hide FindArrow;
    hide Shows;
    hide Tracked;
    hide TrimStart;
  }

  lemma CutIsRead(item: Item, e: Entry)
    requires item.CutItem? && Proper(item)
    ensures ReadLine(Render(item)) == Accepted(e) <==> Reports(item, e)
  {
    var CutItem(code, wide, rest) := item;
    TrackedLine(code, wide, rest);
    assert TrimQuotesStart("") == "" && TrimQuotesEnd("") == "";
    assert NormalizeGitPath("") == "";
    assert FindArrow("") == None;
    hide ReadLine;
    hide FindArrow;
    hide NormalizeGitPath;
    hide IsBlank;
  }

  lemma MarkedIsRead(item: Item, e: Entry)
    requires item.NewItem? || item.IgnoredItem?
    ensures ReadLine(Render(item)) == Accepted(e) <==> Reports(item, e)
  {
    var line := Render(item);
    assert line[0] == '?' || line[0] == '!';
    assert !IsBlank(line);
    assert line[3..] == item.path && line[..3] == if item.NewItem? then "?? " else "!! ";
    NormalFormIsShown(item.path, EntryPath(e));
    hide NormalizeGitPath;
    hide Shows;
    hide IsBlank;
  }

  /** A line is read as the entry that its item reports, and as no other. */
  lemma ItemIsRead(item: Item, e: Entry)
    requires Proper(item)
    ensures ReadLine(Render(item)) == Accepted(e) <==> Reports(item, e)
  {
    match item
    case NewItem(_) => MarkedIsRead(item, e);
    case IgnoredItem(_) => MarkedIsRead(item, e);
    case CodedItem(_, _, _, _) => CodedIsRead(item, e);
    case MovedItem(_, _, _, _, _) => MovedIsRead(item, e);
    case CutItem(_, _, _) => CutIsRead(item, e);
  }

  /* ---- every accepted line is an item ---- */

  predicate Marked(line: string) { StartsWith(line, "?? ") || StartsWith(line, "!! ") }

  lemma LetterIsNoBlank(code: string)
    requires Letter(code, 'R') || Letter(code, 'D')
    ensures !IsBlank(code)
  {
    var i := if code[0] == 'R' || code[0] == 'D' then 0 else 1;
    assert !IsWhitespace(code[i]);
  }

  /** The code, the character after it and the rest of a line that is neither marked nor too short. */
  lemma LineParts(line: string) returns (code: string, c: char, rest: string)
    requires !IsBlank(line) && !Marked(line) && ByteLength(line) >= 4 && SplitAtByte(line, 2).Some?
    ensures line == code + [c] + rest && ByteLength(code) == 2 && (ByteWidth(c) == 1 ==> rest != "")
    ensures ReadLine(line) == ReadCoded(code, if ByteWidth(c) == 1 then TrimStart(rest) else "")
    ensures !StartsWith(code + [c], "?? ") && !StartsWith(code + [c], "!! ")
  {
    var after := SplitAtByte(line, 2).value.1;
    code := SplitAtByte(line, 2).value.0;
    SplitIsSound(line, 2);
    BytesAdd(code, after);
    assert after != "";
    c, rest := after[0], after[1..];
    assert line == code + [c] + rest;
    assert ByteLength(after) == ByteWidth(c) + ByteLength(rest);
    TrackedSlices(code, c, rest);
    CodeIsShort(code);
    hide ReadCoded;
    hide IsBlank;
    hide SplitAtByte;
    hide ByteLength;
    hide ByteWidth;
    hide TrimStart;
  }

  lemma ArrowStarts(s: string, n: nat)
    requires IsArrow(s, n)
    ensures IsWhitespace(s[n])
  {
    assert s[n] == s[n..n + 4][0];
  }

  lemma MovedItemOf(code: string, c: char, blanks: string, payload: string, n: nat) returns (item: Item)
    requires Tracked(code, [c]) && ByteWidth(c) == 1 && IsBlank(blanks) && Letter(code, 'R')
    requires payload != "" && !IsWhitespace(payload[0]) && IsArrow(payload, n) && NoArrowBefore(payload, n)
    ensures Proper(item) && Render(item) == code + [c] + (blanks + payload)
  {
    var from, to := payload[..n], payload[n + 4..];
    assert payload == from + " -> " + to;
    ArrowStarts(payload, n);
    item := MovedItem(code, c, blanks, from, to);
    hide Tracked;
    hide IsArrow;
    assert code + [c] + blanks + payload == code + [c] + (blanks + payload);
  }

  lemma TrackedItem(code: string, c: char, rest: string) returns (item: Item)
    requires Tracked(code, [c]) && (ByteWidth(c) == 1 ==> rest != "")
    ensures Proper(item) && Render(item) == code + [c] + rest
  {
    if ByteWidth(c) == 1 {
      var blanks := BlanksBefore(rest);
      var payload := TrimStart(rest);
      ArrowIsFirst(payload);
      hide Tracked;
      hide TrimStart;
      hide IsBlank;
      hide IsWhitespace;
      if Letter(code, 'R') && FindArrow(payload).Some? {
        ArrowInside(payload);
        item := MovedItemOf(code, c, blanks, payload, FindArrow(payload).value);
      } else {
        item := CodedItem(code, c, blanks, payload);
        assert code + [c] + blanks + payload == code + [c] + (blanks + payload);
      }
    } else {
      item := CutItem(code, c, rest);
    }
  }

  /** The accepted lines are exactly the renderings of items, read as what those report. */
  lemma AcceptedExactly(line: string, e: Entry)
    ensures ReadLine(line) == Accepted(e) <==> exists item :: Proper(item) && Render(item) == line && Reports(item, e)
  {
    if item :| Proper(item) && Render(item) == line && Reports(item, e) {
      ItemIsRead(item, e);
    }
    if ReadLine(line) == Accepted(e) {
      var item := ItemOfLine(line);
      ItemIsRead(item, e);
    }
  }

  lemma ItemOfLine(line: string) returns (item: Item)
    requires ReadLine(line).Accepted?
    ensures Proper(item) && Render(item) == line
  {
    if StartsWith(line, "?? ") {
      item := NewItem(line[3..]);
    } else if StartsWith(line, "!! ") {
      item := IgnoredItem(line[3..]);
    } else {
      var code, c, rest := LineParts(line);
      if Letter(code, 'R') || Letter(code, 'D') {
        LetterIsNoBlank(code);
      }
      item := TrackedItem(code, c, rest);
    }
  }

  lemma SkippedCode(code: string, payload: string)
    ensures ReadCoded(code, payload) == Skipped <==> IsBlank(code)
  {
    if Letter(code, 'R') || Letter(code, 'D') {
      LetterIsNoBlank(code);
    }
    hide IsBlank;
    hide FindArrow;
    hide NormalizeGitPath;
  }

  /** Which lines are skipped: blank ones, and, unless marked, those of less than four bytes and those
    whose code is blank. */
  lemma SkippedExactly(line: string)
    ensures ReadLine(line) == Skipped <==>
            || IsBlank(line)
            || (!Marked(line)
                && (ByteLength(line) < 4
                    || exists code, rest :: line == code + rest && ByteLength(code) == 2 && IsBlank(code)))
  {
    hide ReadCoded;
    hide IsBlank;
    hide SplitAtByte;
    hide ByteLength;
    hide TrimStart;
    if !IsBlank(line) && !Marked(line) && ByteLength(line) >= 4 {
      if SplitAtByte(line, 2).Some? {
        var code, c, rest := LineParts(line);
        assert line == code + ([c] + rest);
        SkippedCode(code, if ByteWidth(c) == 1 then TrimStart(rest) else "");
        forall a, b | line == a + b && ByteLength(a) == 2 ensures a == code {
          SplitMeans(line, 2, a, b);
          SplitMeans(line, 2, code, [c] + rest);
        }
      } else {
        forall a, b | line == a + b ensures ByteLength(a) != 2 {
          SplitMeans(line, 2, a, b);
        }
      }
    }
  }

  /** Which lines make the slice fail: those in which no front part takes exactly two bytes. */
  lemma PanicsExactly(line: string)
    ensures ReadLine(line).Panics? <==>
            && !IsBlank(line) && !Marked(line) && ByteLength(line) >= 4
            && forall code, rest :: line == code + rest ==> ByteLength(code) != 2
  {
    forall code, rest | line == code + rest ensures ByteLength(code) == 2 ==> SplitAtByte(line, 2).Some? {
      SplitMeans(line, 2, code, rest);
    }
    SplitIsSound(line, 2);
    hide IsBlank;
    hide SplitAtByte;
    hide ByteLength;
  }

  /* ---- the whole output ---- */

  ghost predicate Rendered(items: seq<Item>, entries: seq<Entry>, lines: seq<string>) {
    && |items| == |entries| == |lines|
    && forall i :: 0 <= i < |items| ==>
         Proper(items[i]) && Reports(items[i], entries[i]) && lines[i] == Render(items[i])
  }

  /** Rendered, ended and put in a row, items are read back as the entries that they report: each of them in
    its own list, and nothing else. */
  lemma ReadsBack(items: seq<Item>, entries: seq<Entry>, lines: seq<string>, ends: seq<string>, e: Entry)
    requires Rendered(items, entries, lines) && AllTerminated(lines, ends)
    ensures Parse(Lines(Text(lines, ends))).Some?
    ensures Listed(Parse(Lines(Text(lines, ends))).value, e) <==> e in entries
  {
    hide Proper;
    hide Reports;
    hide Parse;
    hide ReadLine;
    hide Listed;
    LinesOfText(lines, ends);
    ParseListsExactly(lines, e);
    forall i | 0 <= i < |lines| ensures ReadLine(lines[i]) == Accepted(entries[i]) {
      ItemIsRead(items[i], entries[i]);
    }
    forall l | l in lines ensures ReadLine(l).Accepted? {
      var i :| 0 <= i < |lines| && lines[i] == l;
    }
    if e in entries {
      var i :| 0 <= i < |entries| && entries[i] == e;
      assert lines[i] in lines;
    }
    if l :| l in lines && ReadLine(l) == Accepted(e) {
      var i :| 0 <= i < |lines| && lines[i] == l;
      assert entries[i] == e;
    }
  }

  /* ---- the count of dirty paths ---- */

  function EntriesOf<T(==)>(list: seq<T>, f: T -> Entry): set<Entry> { set x | x in list :: f(x) }

  function AsDirty(): string -> Entry { (p: string) => Dirty(p) }

  function AsUntracked(): string -> Entry { (p: string) => Untracked(p) }

  function AsDeleted(): string -> Entry { (p: string) => Deleted(p) }

  function AsRenamed(): Rename -> Entry { (r: Rename) => Renamed(r) }

  /** The entries that a status lists, ignored files apart. */
  function Changes(s: Status): set<Entry> {
    EntriesOf(s.dirty, AsDirty()) + EntriesOf(s.untracked, AsUntracked()) + EntriesOf(s.deleted, AsDeleted())
    + EntriesOf(s.renamed, AsRenamed())
  }

  lemma {:induction false} DistinctEntries<T(!new)>(list: seq<T>, lt: (T, T) -> bool, f: T -> Entry)
    requires StrictOrder(lt) && StrictlySorted(lt, list) && forall x, y :: f(x) == f(y) ==> x == y
    ensures |EntriesOf(list, f)| == |list|
  {
    if list != [] {
      var front, last := list[..|list| - 1], list[|list| - 1];
      DistinctEntries(front, lt, f);
      assert last !in front;
      assert EntriesOf(list, f) == EntriesOf(front, f) + {f(last)};
    }
  }

  lemma ChangesAreListed(s: Status, e: Entry)
    ensures e in Changes(s) <==> Listed(s, e) && !e.Ignored?
  {
  }

  lemma DisjointSizes(a: set<Entry>, b: set<Entry>, c: set<Entry>, d: set<Entry>)
    requires forall e :: (e in a ==> e.Dirty?) && (e in b ==> e.Untracked?)
    requires forall e :: (e in c ==> e.Deleted?) && (e in d ==> e.Renamed?)
    ensures |a + b + c + d| == |a| + |b| + |c| + |d|
  {
    assert a !! b && (a + b) !! c && (a + b + c) !! d;
  }

  /** The count of a parsed status is the number of its entries other than ignored files. */
  lemma DirtyCountExactly(lines: seq<string>)
    requires Parse(lines).Some?
    ensures var s := Parse(lines).value;
            && DirtyPathCount(s) == |Changes(s)|
            && forall e :: e in Changes(s) <==> Listed(s, e) && !e.Ignored?
  {
    ParsedListsIncrease(lines);
    StrLessIsStrictTotalOrder();
    RenameLessIsStrictTotalOrder();
    hide Parse;
    hide StrLess;
    hide RenameLess;
    hide StrictOrder;
    hide StrictlySorted;
    var s := Parse(lines).value;
    forall e ensures e in Changes(s) <==> Listed(s, e) && !e.Ignored? { ChangesAreListed(s, e); }
    hide Listed;
    DistinctEntries(s.dirty, StrLess, AsDirty());
    DistinctEntries(s.untracked, StrLess, AsUntracked());
    DistinctEntries(s.deleted, StrLess, AsDeleted());
    DistinctEntries(s.renamed, RenameLess, AsRenamed());
    DisjointSizes(EntriesOf(s.dirty, AsDirty()), EntriesOf(s.untracked, AsUntracked()),
                  EntriesOf(s.deleted, AsDeleted()), EntriesOf(s.renamed, AsRenamed()));
  }
}
