/**
 The canonical plan of a reprocessing run: order, encoding and fingerprint.

 Text is its UTF-8 encoding here, one `char` per byte, because the encoding counts bytes.
 */
module PlanEncoding {
  import opened Wrappers
  import opened Text

  datatype Classification = Normalized | UnknownRecord | UnknownSection | Conflict | Warning | Omitted

  datatype Item = Item(key: string, classification: Classification, digest: Option<string>)

  function WireName(classification: Classification): (name: string)
    ensures '|' !in name
  {
    match classification
    case Normalized => "normalized"
    case UnknownRecord => "unknown_record"
    case UnknownSection => "unknown_section"
    case Conflict => "conflict"
    case Warning => "warning"
    case Omitted => "omitted"
  }

  // ----- The encoding ------------------------------------------------------------------------

  function DigestText(digest: Option<string>): string {
    if digest.Some? then digest.value else "-"
  }

  function EncodeItem(item: Item): string {
    Decimal(|item.key|) + ":" +
      (item.key + ("|" + (WireName(item.classification) + "|" + (DigestText(item.digest) + "\n"))))
  }

  /** The canonical plan text of an ordered item list. */
  function Encode(items: seq<Item>): string {
    if items == [] then "" else EncodeItem(items[0]) + Encode(items[1..])
  }

  /** The loop of `render_report` that builds the plan text. */
  method BuildPlan(items: seq<Item>) returns (plan: string)
    ensures plan == Encode(items)
  {
    plan := "";
    for n := 0 to |items|
      invariant plan + Encode(items[n..]) == Encode(items)
    {
      ghost var before := plan;
      plan := plan + EncodeItem(items[n]);
      assert items[n..][1..] == items[n + 1..];
      assert before + (EncodeItem(items[n]) + Encode(items[n + 1..])) == plan + Encode(items[n + 1..]);
    }
    assert Encode(items[|items|..]) == "";
    assert plan + "" == plan;
  }

  /** A digest the encoding keeps apart from an absent one and from what follows; 64 hexadecimal digits are one. */
  predicate PlainDigest(digest: Option<string>) {
    digest.Some? ==> digest.value != "-" && '\n' !in digest.value
  }

  predicate PlainPlan(items: seq<Item>) {
    forall i :: 0 <= i < |items| ==> PlainDigest(items[i].digest)
  }

  /** Two texts that agree split at their first separator alike. */
  lemma SameSplit(a: string, x: string, b: string, y: string, c: char)
    requires a + [c] + x == b + [c] + y && c !in a && c !in b
    ensures a == b && x == y
  {
    SplitsFirst(a, [c], x);
    SplitsFirst(b, [c], y);
  }

  lemma SamePrefix(a: string, x: string, b: string, y: string)
    requires a + x == b + y && |a| == |b|
    ensures a == b && x == y
  {
    assert (a + x)[..|a|] == a && (b + y)[..|b|] == b;
    assert (a + x)[|a|..] == x && (b + y)[|b|..] == y;
  }

  lemma WireNamesDiffer(a: Classification, b: Classification)
    requires WireName(a) == WireName(b)
    ensures a == b
  {
    assert WireName(a)[0] == WireName(b)[0] && |WireName(a)| == |WireName(b)|;
  }

  /** The text of an item after its length: the key, the class and the digest. */
  function Rest(item: Item, tail: string): string {
    item.key + ("|" + (WireName(item.classification) + "|" + (DigestText(item.digest) + "\n" + tail)))
  }

  lemma ItemThenTail(item: Item, tail: string)
    ensures EncodeItem(item) + tail == Decimal(|item.key|) + ":" + Rest(item, tail)
  {
    var digest := DigestText(item.digest) + "\n";
    var named := WireName(item.classification) + "|";
    assert named + digest + tail == named + (digest + tail);
    assert "|" + (named + digest) + tail == "|" + (named + (digest + tail));
    assert item.key + ("|" + (named + digest)) + tail == item.key + ("|" + (named + (digest + tail)));
    var length := Decimal(|item.key|) + ":";
    assert length + (item.key + ("|" + (named + digest))) + tail ==
           length + (item.key + ("|" + (named + digest)) + tail);
  }

  lemma SameItem(a: Item, x: string, b: Item, y: string)
    requires PlainDigest(a.digest) && PlainDigest(b.digest)
    requires EncodeItem(a) + x == EncodeItem(b) + y
    ensures a == b && x == y
  {
    ItemThenTail(a, x);
    ItemThenTail(b, y);
    SameSplit(Decimal(|a.key|), Rest(a, x), Decimal(|b.key|), Rest(b, y), ':');
    DecimalValue(|a.key|);
    DecimalValue(|b.key|);
    SameRest(a, x, b, y);
  }

  lemma SameRest(a: Item, x: string, b: Item, y: string)
    requires PlainDigest(a.digest) && PlainDigest(b.digest) && |a.key| == |b.key| && Rest(a, x) == Rest(b, y)
    ensures a == b && x == y
  {
    var digestA, digestB := DigestText(a.digest), DigestText(b.digest);
    var classA, classB := WireName(a.classification) + "|" + (digestA + "\n" + x),
      WireName(b.classification) + "|" + (digestB + "\n" + y);
    SamePrefix(a.key, "|" + classA, b.key, "|" + classB);
    SamePrefix("|", classA, "|", classB);
    SameSplit(WireName(a.classification), digestA + "\n" + x, WireName(b.classification), digestB + "\n" + y, '|');
    WireNamesDiffer(a.classification, b.classification);
    SameSplit(digestA, x, digestB, y, '\n');
  }

  lemma SomethingPerItem(items: seq<Item>)
    ensures Encode(items) == "" <==> items == []
  {
    if items == [] {
    } else {
      assert |EncodeItem(items[0])| >= 1;
    }
  }

  /** Item lists with plain digests and arbitrary keys encode equally only if they are equal. */
  lemma {:induction false} EncodingIsInjective(a: seq<Item>, b: seq<Item>)
    requires PlainPlan(a) && PlainPlan(b) && Encode(a) == Encode(b)
    ensures a == b
    decreases |a|
  {
    SomethingPerItem(a);
    SomethingPerItem(b);
    if a == [] {
    } else {
      SameItem(a[0], Encode(a[1..]), b[0], Encode(b[1..]));
      EncodingIsInjective(a[1..], b[1..]);
      assert a == [a[0]] + a[1..] && b == [b[0]] + b[1..];
    }
  }

  // ----- What the plain digests leave out ----------------------------------------------------

  predicate IsHexDigest(digest: string) {
    |digest| == 64 && forall i :: 0 <= i < |digest| ==> '0' <= digest[i] <= '9' || 'a' <= digest[i] <= 'f'
  }

  /** Every digest is absent or 64 hexadecimal digits. */
  predicate HexPlan(items: seq<Item>) {
    forall i :: 0 <= i < |items| && items[i].digest.Some? ==> IsHexDigest(items[i].digest.value)
  }

  /** The plans the service fingerprints: with such digests and arbitrary keys the encoding is injective. */
  lemma HexPlansAreInjective(a: seq<Item>, b: seq<Item>)
    requires HexPlan(a) && HexPlan(b)
    ensures Encode(a) == Encode(b) <==> a == b
  {
    if Encode(a) == Encode(b) {
      EncodingIsInjective(a, b);
    }
  }

  /** A digest that is a single dash reads like an absent one. */
  function BlankedItem(item: Item): Item {
    if item.digest == Some("-") then item.(digest := None) else item
  }

  function Blanked(items: seq<Item>): (blanked: seq<Item>)
    ensures |blanked| == |items| && forall i :: 0 <= i < |items| ==> blanked[i] == BlankedItem(items[i])
  {
    if items == [] then [] else [BlankedItem(items[0])] + Blanked(items[1..])
  }

  predicate NewlineFree(items: seq<Item>) {
    forall i :: 0 <= i < |items| && items[i].digest.Some? ==> '\n' !in items[i].digest.value
  }

  lemma {:induction false} BlankedEncodesAlike(items: seq<Item>)
    ensures Encode(Blanked(items)) == Encode(items)
  {
    if items == [] {
    } else {
      BlankedEncodesAlike(items[1..]);
      assert EncodeItem(BlankedItem(items[0])) == EncodeItem(items[0]);
      assert Blanked(items)[1..] == Blanked(items[1..]);
    }
  }

  /**
   Without newlines in digests two lists encode equally exactly when they differ in dashes for absent
   digests only.
   */
  lemma EncodesAlikeIffBlankedAlike(a: seq<Item>, b: seq<Item>)
    requires NewlineFree(a) && NewlineFree(b)
    ensures Encode(a) == Encode(b) <==> Blanked(a) == Blanked(b)
  {
    BlankedEncodesAlike(a);
    BlankedEncodesAlike(b);
    if Encode(a) == Encode(b) {
      EncodingIsInjective(Blanked(a), Blanked(b));
    }
  }

  /** So a dash and an absent digest are never kept apart. */
  lemma DashCollides(item: Item)
    requires item.digest.None?
    ensures [item.(digest := Some("-"))] != [item] && Encode([item.(digest := Some("-"))]) == Encode([item])
  {
    var dashed := item.(digest := Some("-"));
    assert Blanked([dashed]) == Blanked([item]);
    EncodesAlikeIffBlankedAlike([dashed], [item]);
  }

  /** The text of an item without the newline that ends it. */
  function Line(item: Item): string {
    Decimal(|item.key|) + ":" + (item.key + ("|" + (WireName(item.classification) + "|" + DigestText(item.digest))))
  }

  lemma LineThenNewline(item: Item)
    ensures EncodeItem(item) == Line(item) + "\n"
  {
    var digest, named := DigestText(item.digest), WireName(item.classification) + "|";
    assert named + (digest + "\n") == named + digest + "\n";
    assert "|" + (named + digest + "\n") == "|" + (named + digest) + "\n";
    assert item.key + ("|" + (named + digest) + "\n") == item.key + ("|" + (named + digest)) + "\n";
    var length := Decimal(|item.key|) + ":";
    assert length + (item.key + ("|" + (named + digest)) + "\n") ==
           length + (item.key + ("|" + (named + digest))) + "\n";
  }

  lemma OneLine(item: Item)
    ensures Encode([item]) == Line(item) + "\n"
  {
    LineThenNewline(item);
    assert [item][1..] == [];
  }

  lemma TwoLines(a: Item, b: Item)
    ensures Encode([a, b]) == Line(a) + "\n" + (Line(b) + "\n")
  {
    LineThenNewline(a);
    OneLine(b);
    assert [a, b][1..] == [b];
  }

  lemma LongerDigest(item: Item, more: string)
    ensures Line(item.(digest := Some(DigestText(item.digest) + more))) == Line(item) + more
  {
    var digest, named := DigestText(item.digest), WireName(item.classification) + "|";
    assert named + (digest + more) == named + digest + more;
    assert "|" + (named + digest + more) == "|" + (named + digest) + more;
    assert item.key + ("|" + (named + digest) + more) == item.key + ("|" + (named + digest)) + more;
    var length := Decimal(|item.key|) + ":";
    assert length + (item.key + ("|" + (named + digest)) + more) ==
           length + (item.key + ("|" + (named + digest))) + more;
  }

  /** The first item, with the second one as the rest of its digest. */
  function Joined(a: Item, b: Item): Item {
    a.(digest := Some(DigestText(a.digest) + ("\n" + Line(b))))
  }

  lemma Regroup(x: string, y: string)
    ensures x + ("\n" + y) + "\n" == x + "\n" + (y + "\n")
  {
  }

  /** Newlines do matter: any two items encode like one, which has a newline in its digest. */
  lemma NewlineCollides(a: Item, b: Item)
    ensures [Joined(a, b)] != [a, b] && Encode([Joined(a, b)]) == Encode([a, b])
  {
    OneLine(Joined(a, b));
    TwoLines(a, b);
    LongerDigest(a, "\n" + Line(b));
    Regroup(Line(a), Line(b));
  }
}
