/** How evidence texts compare: the ties between equally good frames and offers.

  The rank of an edge's kind enters the text in decimal, and the text is compared character by
  character, so that ranks 10 and 11 come before rank 1. */
module EvidenceText {
  import opened Ordering
  import opened ImpactModel
  import opened HitOrder

  const TEXT_ORDER: seq<Reason> :=
    [Seed, TestAffinity, Defines, References, Imports, Exports, DeclaredInFile, Contains, ImportedByFile,
     ReferencedByFile, TestReference, PackageMember]

  lemma PrefixesDecide(a: string, b: string, x: string, y: string, k: nat)
    requires k < |a| && k < |b| && a[..k] == b[..k] && a[k] != b[k]
    ensures StrLess(a + x, b + y) <==> a[k] < b[k]
  {
    assert (a + x)[..k] == a[..k] && (b + y)[..k] == b[..k];
    FirstDifferenceDecides(a + x, b + y, k);
  }

  function Code(r: Reason): string { ReasonRankText(r) + ":" }

  /** The codes differ within their first two characters, in the order of the list. */
  lemma CodesInOrder(a: Reason, b: Reason) returns (k: nat)
    requires a != b
    ensures k < 2 && k < |Code(a)| && k < |Code(b)| && Code(a)[..k] == Code(b)[..k] && Code(a)[k] != Code(b)[k]
    ensures Code(a)[k] < Code(b)[k] <==> Place(a) < Place(b)
  {
    k := if Code(a)[0] == Code(b)[0] then 1 else 0;
  }

  function Place(r: Reason): (i: nat)
    ensures i < |TEXT_ORDER| && TEXT_ORDER[i] == r
  {
    match r
    case Seed => 0 case TestAffinity => 1 case Defines => 2 case References => 3 case Imports => 4 case Exports => 5
    case DeclaredInFile => 6 case Contains => 7 case ImportedByFile => 8 case ReferencedByFile => 9
    case TestReference => 10 case PackageMember => 11
  }

  lemma PlaceOrder(a: Reason, b: Reason)
    ensures Sooner(TEXT_ORDER, a, b) <==> Place(a) < Place(b)
  {
    assert forall i :: 0 <= i < |TEXT_ORDER| ==> Place(TEXT_ORDER[i]) == i;
  }

  /** An edge's text after the code of its kind. */
  function Rest(e: Edge): string { e.from.Key() + ":" + e.to.Key() + ":" + MetaKey(e.metadata) }

  lemma FrontOfMany(a: string, b: string, c: string, d: string)
    ensures a + ":" + b + ":" + c + ":" + d == (a + ":") + (b + ":" + c + ":" + d)
  {
  }

  lemma EdgeTextParts(e: Edge)
    ensures EdgeText(e) == Code(e.kind) + Rest(e)
  {
    hide ReasonRankText;
    hide Entity.Key;
    hide MetaKey;
    FrontOfMany(ReasonRankText(e.kind), e.from.Key(), e.to.Key(), MetaKey(e.metadata));
  }

  /** Edges of different kinds compare by kind, in this order. */
  lemma KindDecides(a: Edge, b: Edge)
    requires a.kind != b.kind
    ensures StrLess(EdgeText(a), EdgeText(b)) <==> Sooner(TEXT_ORDER, a.kind, b.kind)
  {
    var k := CodesInOrder(a.kind, b.kind);
    PlaceOrder(a.kind, b.kind);
    EdgeTextParts(a);
    EdgeTextParts(b);
    hide EdgeText;
    hide Rest;
    hide Code;
    hide Sooner;
    hide StrLess;
    PrefixesDecide(Code(a.kind), Code(b.kind), Rest(a), Rest(b), k);
  }

  /** Edges of one kind from one entity compare by where they lead and then by their metadata. */
  lemma DestinationDecides(a: Edge, b: Edge)
    requires a.kind == b.kind && a.from.Key() == b.from.Key()
    ensures StrLess(EdgeText(a), EdgeText(b))
            <==> StrLess(a.to.Key() + ":" + MetaKey(a.metadata), b.to.Key() + ":" + MetaKey(b.metadata))
  {
    hide Entity.Key;
    hide MetaKey;
    hide ReasonRankText;
    var front := ReasonRankText(a.kind) + ":" + a.from.Key() + ":";
    var x, y := a.to.Key() + ":" + MetaKey(a.metadata), b.to.Key() + ":" + MetaKey(b.metadata);
    assert EdgeText(a) == front + x && EdgeText(b) == front + y;
    StrLessAfterPrefix(front, x, y);
  }

  lemma {:induction false} JoinLast(parts: seq<string>, last: string, separator: string)
    ensures Join(parts + [last], separator) == if parts == [] then last else Join(parts, separator) + separator + last
  {
    if |parts| > 0 {
      assert (parts + [last])[1..] == parts[1..] + [last];
      JoinLast(parts[1..], last, separator);
    }
  }

  lemma PathTextLast(path: ReasonPath, e: Edge)
    ensures PathText(path + [e]) == (if path == [] then "" else PathText(path) + "|") + EdgeText(e)
  {
    hide EdgeText;
    var texts := seq(|path|, i requires 0 <= i < |path| => EdgeText(path[i]));
    var longer := path + [e];
    assert seq(|longer|, i requires 0 <= i < |longer| => EdgeText(longer[i])) == texts + [EdgeText(e)];
    JoinLast(texts, EdgeText(e), "|");
  }

  /** Paths that agree but for their last edge compare by it. */
  lemma LastEdgeDecides(path: ReasonPath, a: Edge, b: Edge)
    ensures StrLess(PathText(path + [a]), PathText(path + [b])) <==> StrLess(EdgeText(a), EdgeText(b))
  {
    hide EdgeText;
    PathTextLast(path, a);
    PathTextLast(path, b);
    hide PathText;
    StrLessAfterPrefix(if path == [] then "" else PathText(path) + "|", EdgeText(a), EdgeText(b));
  }

  /* ---- metadata ---- */

  lemma MetaKeyLast(m: Metadata, key: string, value: string)
    ensures MetaKey(m + [(key, value)]) == (if m == [] then "" else MetaKey(m) + ";") + (key + "=" + value)
    ensures MetaKey([]) == ""
  {
    var texts := seq(|m|, i requires 0 <= i < |m| => m[i].0 + "=" + m[i].1);
    var longer := m + [(key, value)];
    assert seq(|longer|, i requires 0 <= i < |longer| => longer[i].0 + "=" + longer[i].1)
           == texts + [key + "=" + value];
    JoinLast(texts, key + "=" + value, ";");
  }

  /** Metadata that agree but for their last entry compare by its text, key first. */
  lemma LastEntryDecides(m: Metadata, key: string, value: string, other: string, content: string)
    ensures StrLess(MetaKey(m + [(key, value)]), MetaKey(m + [(other, content)]))
            <==> StrLess(key + "=" + value, other + "=" + content)
    ensures key == other ==>
              (StrLess(MetaKey(m + [(key, value)]), MetaKey(m + [(other, content)])) <==> StrLess(value, content))
  {
    MetaKeyLast(m, key, value);
    MetaKeyLast(m, other, content);
    hide MetaKey;
    StrLessAfterPrefix(if m == [] then "" else MetaKey(m) + ";", key + "=" + value, other + "=" + content);
    StrLessAfterPrefix(key + "=", value, content);
  }

  /* ---- entity keys ---- */

  const KEY_ORDER: seq<Kind> := [FileKind, PackageKind, SymbolKind, TestKind]

  /** What tells entities of one kind apart. */
  function OwnText(e: Entity): string {
    match e
    case Symbol(id, _, _) => id
    case File(path) => path
    case Package(name, root) => root + ":" + name
    case Test(path, _, owner) => path + ":" + (if owner.Some? then owner.value else "")
  }

  function Prefix(k: Kind): string {
    match k
    case SymbolKind => "symbol:"
    case FileKind => "file:"
    case PackageKind => "package:"
    case TestKind => "test:"
  }

  lemma KeyParts(e: Entity)
    ensures e.Key() == Prefix(e.Kind()) + OwnText(e)
  {
    match e
    case Symbol(_, _, _) =>
    case File(_) =>
    case Package(name, root) =>
      assert "package:" + root + ":" + name == "package:" + (root + ":" + name);
    case Test(path, _, owner) =>
      var text := if owner.Some? then owner.value else "";
      assert "test:" + path + ":" + text == "test:" + (path + ":" + text);
  }

  lemma PrefixesInOrder(a: Kind, b: Kind)
    requires a != b
    ensures Prefix(a)[0] != Prefix(b)[0]
    ensures Prefix(a)[0] < Prefix(b)[0] <==> Sooner(KEY_ORDER, a, b)
  {
    assert KEY_ORDER[0] == FileKind && KEY_ORDER[1] == PackageKind;
    assert KEY_ORDER[2] == SymbolKind && KEY_ORDER[3] == TestKind;
  }

  /** Entity keys compare by kind, files first, then packages, symbols and tests; within a kind by symbol id,
    by path, by root and name, or by path and owner. */
  lemma EntityKeysDecide(a: Entity, b: Entity)
    ensures a.Kind() != b.Kind() ==> (StrLess(a.Key(), b.Key()) <==> Sooner(KEY_ORDER, a.Kind(), b.Kind()))
    ensures a.Kind() == b.Kind() ==> (StrLess(a.Key(), b.Key()) <==> StrLess(OwnText(a), OwnText(b)))
  {
    KeyParts(a);
    KeyParts(b);
    hide Entity.Key;
    hide OwnText;
    if a.Kind() == b.Kind() {
      StrLessAfterPrefix(Prefix(a.Kind()), OwnText(a), OwnText(b));
    } else {
      PrefixesInOrder(a.Kind(), b.Kind());
      hide Sooner;
      hide StrLess;
      PrefixesDecide(Prefix(a.Kind()), Prefix(b.Kind()), OwnText(a), OwnText(b), 0);
    }
  }
}
