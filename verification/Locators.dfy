/**
 What a locator finds.  A locator is a chain of type selectors joined by child combinators; an
 element matches it under the rules for child combinators and `:nth-of-type` of sections 8.2
 and 6.6.5.4 of Selectors Level 3.
 */
module Locators {
  import opened Prelude
  import opened JsValues
  import opened Protocol
  import opened Selections

  // ---------------------------------------------------------------- documents

  datatype Node = Node(tag: JsString, kids: seq<Node>)

  /** An element of a document is named by the child indices that lead to it from the root. */
  type Path = seq<nat>

  predicate Valid(root: Node, p: Path) {
    p == [] || (p[0] < |root.kids| && Valid(root.kids[p[0]], p[1..]))
  }

  function NodeAt(root: Node, p: Path): Node
    requires Valid(root, p)
  {
    if p == [] then root else NodeAt(root.kids[p[0]], p[1..])
  }

  function Count(kids: seq<Node>, tag: JsString): nat {
    if kids == [] then 0
    else Count(kids[..|kids| - 1], tag) + (if kids[|kids| - 1].tag == tag then 1 else 0)
  }

  function Parent(p: Path): Path
    requires p != []
  {
    p[..|p| - 1]
  }

  lemma {:induction false} ParentIsValid(root: Node, p: Path)
    requires Valid(root, p) && p != []
    ensures Valid(root, Parent(p))
    ensures p[|p| - 1] < |NodeAt(root, Parent(p)).kids|
    ensures NodeAt(root, p) == NodeAt(root, Parent(p)).kids[p[|p| - 1]]
    decreases |p|
  {
    if |p| > 1 {
      ParentIsValid(root.kids[p[0]], p[1..]);
      assert Parent(p)[1..] == Parent(p[1..]);
    } else {
      assert Parent(p) == [] && p[1..] == [];
    }
  }

  // ---------------------------------------------------------------- selectors

  datatype Simple = Tag(tag: JsString) | Nth(tag: JsString, n: nat)

  type Selector = seq<Simple>

  /** Which of its siblings of the same type an element is, counted from one. */
  function Place(root: Node, p: Path): nat
    requires Valid(root, p) && p != []
  {
    ParentIsValid(root, p);
    var kids := NodeAt(root, Parent(p)).kids;
    Count(kids[..p[|p| - 1]], NodeAt(root, p).tag) + 1
  }

  predicate MatchesSimple(root: Node, p: Path, s: Simple)
    requires Valid(root, p)
  {
    NodeAt(root, p).tag == s.tag && (s.Nth? ==> p != [] && Place(root, p) == s.n)
  }

  /** `a > b > c`: the element matches c, its parent b, its grandparent a. */
  predicate Matches(root: Node, p: Path, sel: Selector)
    requires Valid(root, p)
    decreases |sel|
  {
    && sel != []
    && MatchesSimple(root, p, sel[|sel| - 1])
    && (|sel| > 1 ==> p != [] && (ParentIsValid(root, p); Matches(root, Parent(p), sel[..|sel| - 1])))
  }

  // ---------------------------------------------------------------- locators

  /** The part for one element without identifying attributes. */
  function PartFor(root: Node, p: Path): Simple
    requires Valid(root, p)
  {
    var tag := NodeAt(root, p).tag;
    if p == [] then Tag(tag)
    else
      ParentIsValid(root, p);
      if Count(NodeAt(root, Parent(p)).kids, tag) > 1 then Nth(tag, Place(root, p)) else Tag(tag)
  }

  /** The parts of the `n` nearest elements, outermost first. */
  function Nearest(root: Node, p: Path, n: nat): (sel: Selector)
    requires Valid(root, p) && 1 <= n <= |p| + 1
    ensures |sel| == n
    decreases n
  {
    if n == 1 then [PartFor(root, p)]
    else ParentIsValid(root, p); Nearest(root, Parent(p), n - 1) + [PartFor(root, p)]
  }

  function LocatorSelector(root: Node, p: Path): Selector
    requires Valid(root, p)
  {
    Nearest(root, p, Min(|p| + 1, MAX_LOCATOR_DEPTH))
  }

  // ---------------------------------------------------------------- uniqueness

  lemma {:induction false} CountGrows(kids: seq<Node>, tag: JsString, i: nat, j: nat)
    requires i <= j <= |kids|
    ensures Count(kids[..i], tag) <= Count(kids[..j], tag)
    ensures i < j && kids[i].tag == tag ==> Count(kids[..i], tag) < Count(kids[..j], tag)
    decreases j
  {
    if i < j {
      assert kids[..j][..j - 1] == kids[..j - 1];
      CountGrows(kids, tag, i, j - 1);
    }
  }

  /** Two children of one element with the same type and the same place are the same child. */
  lemma SamePlace(kids: seq<Node>, tag: JsString, i: nat, j: nat)
    requires i < |kids| && j < |kids| && kids[i].tag == tag && kids[j].tag == tag
    requires Count(kids[..i], tag) == Count(kids[..j], tag) || Count(kids, tag) <= 1
    ensures i == j
  {
    assert kids[..|kids|] == kids;
    CountGrows(kids, tag, i, |kids|);
    CountGrows(kids, tag, j, |kids|);
    if i < j { CountGrows(kids, tag, i, j); }
    if j < i { CountGrows(kids, tag, j, i); }
  }

  /** Below the same parent, only one child matches a part. */
  lemma SameChild(root: Node, p: Path, q: Path)
    requires Valid(root, p) && Valid(root, q) && p != [] && q != [] && Parent(p) == Parent(q)
    requires MatchesSimple(root, q, PartFor(root, p))
    ensures q == p
  {
    ParentIsValid(root, p);
    ParentIsValid(root, q);
    var kids := NodeAt(root, Parent(p)).kids;
    SamePlace(kids, NodeAt(root, p).tag, p[|p| - 1], q[|q| - 1]);
    assert p == Parent(p) + [p[|p| - 1]] && q == Parent(q) + [q[|q| - 1]];
  }

  ghost predicate RootTagIsUnique(root: Node) {
    forall q: Path :: Valid(root, q) && NodeAt(root, q).tag == root.tag ==> q == []
  }

  lemma {:induction false} OnlyItselfMatches(root: Node, p: Path, q: Path)
    requires Valid(root, p) && Valid(root, q) && RootTagIsUnique(root)
    requires Matches(root, q, Nearest(root, p, |p| + 1))
    ensures q == p
    decreases |p|
  {
    var sel := Nearest(root, p, |p| + 1);
    assert sel[|sel| - 1] == PartFor(root, p);
    if p != [] {
      ParentIsValid(root, p);
      ParentIsValid(root, q);
      assert sel[..|sel| - 1] == Nearest(root, Parent(p), |p|);
      OnlyItselfMatches(root, Parent(p), Parent(q));
      SameChild(root, p, q);
    }
  }

  lemma {:induction false} ItselfMatches(root: Node, p: Path, n: nat)
    requires Valid(root, p) && 1 <= n <= |p| + 1
    ensures Matches(root, p, Nearest(root, p, n))
    decreases n
  {
    var sel := Nearest(root, p, n);
    if n > 1 {
      ParentIsValid(root, p);
      ItselfMatches(root, Parent(p), n - 1);
      assert sel[..|sel| - 1] == Nearest(root, Parent(p), n - 1);
    }
  }

  /**
   In any document whose root type occurs once, the locator of an element at most six levels
   deep matches that element and no other.
   */
  lemma LocatorIsUnique(root: Node, p: Path, q: Path)
    requires Valid(root, p) && Valid(root, q) && RootTagIsUnique(root)
    requires |p| + 1 <= 6
    ensures Matches(root, q, LocatorSelector(root, p)) <==> q == p
  {
    ItselfMatches(root, p, |p| + 1);
    if Matches(root, q, LocatorSelector(root, p)) { OnlyItselfMatches(root, p, q); }
  }

  // ---------------------------------------------------------------- text

  function SimpleText(s: Simple): JsString {
    match s
    case Tag(tag) => tag
    case Nth(tag, n) => tag + Lit(":nth-of-type(") + Decimal(n) + Lit(")")
  }

  function Texts(sel: Selector): (texts: seq<JsString>)
    ensures |texts| == |sel| && forall i :: 0 <= i < |sel| ==> texts[i] == SimpleText(sel[i])
  {
    seq(|sel|, i requires 0 <= i < |sel| => SimpleText(sel[i]))
  }

  function SelectorText(sel: Selector): JsString {
    Join(Texts(sel), Lit(" > "))
  }

  const COLON: Unit := 0x3A

  predicate AllTags(sel: Selector) {
    forall i :: 0 <= i < |sel| ==> IsTag(sel[i].tag)
  }

  /** Reading a decimal number back. */
  function DecimalValue(s: JsString): int {
    if s == [] then 0
    else
      var last: int := s[|s| - 1];
      10 * DecimalValue(s[..|s| - 1]) + last - 0x30
  }

  lemma {:induction false} DecimalReads(n: nat)
    ensures DecimalValue(Decimal(n)) == n
    ensures forall i :: 0 <= i < |Decimal(n)| ==> IsDigit(Decimal(n)[i])
  {
    if n >= 10 {
      DecimalReads(n / 10);
      var init, d := Decimal(n / 10), 0x30 + n % 10;
      assert (init + [d])[..|init|] == init;
    } else {
      assert Decimal(n)[..0] == [];
    }
  }

  lemma NthHasNoSpace()
    ensures SPACE !in Lit(":nth-of-type(") && SPACE !in Lit(")") && Lit(":nth-of-type(")[0] == COLON
  {
  }

  lemma SimpleTextHasNoSpace(s: Simple)
    requires IsTag(s.tag)
    ensures SimpleText(s) != [] && SPACE !in SimpleText(s)
  {
    if s.Nth? {
      DecimalReads(s.n);
      NthHasNoSpace();
    }
  }

  /** A text in which the first `mark` is known splits in one way. */
  lemma SplitAtMark(a: JsString, x: JsString, b: JsString, y: JsString, mark: Unit)
    requires mark !in a && mark !in b && a + [mark] + x == b + [mark] + y
    ensures a == b && x == y
  {
    var s, t := a + [mark] + x, b + [mark] + y;
    assert s[|a|] == mark && t[|b|] == mark;
    assert forall i :: 0 <= i < |a| ==> s[i] != mark;
    assert forall i :: 0 <= i < |b| ==> t[i] != mark;
    assert |a| == |b|;
    assert a == s[..|a|] && b == t[..|b|];
    assert x == s[|a| + 1..] && y == t[|b| + 1..];
  }

  lemma NthText(tag: JsString, n: nat)
    ensures SimpleText(Nth(tag, n)) == tag + [COLON] + (Lit(":nth-of-type(")[1..] + Decimal(n) + Lit(")"))
  {
    NthHasNoSpace();
    assert Lit(":nth-of-type(") == [COLON] + Lit(":nth-of-type(")[1..];
  }

  lemma TagHasNoColon(s: Simple)
    requires IsTag(s.tag)
    ensures COLON !in s.tag
  {
  }

  lemma SimpleTextDetermines(s: Simple, t: Simple)
    requires IsTag(s.tag) && IsTag(t.tag) && SimpleText(s) == SimpleText(t)
    ensures s == t
  {
    TagHasNoColon(s);
    TagHasNoColon(t);
    if s.Nth? { NthText(s.tag, s.n); assert SimpleText(s)[|s.tag|] == COLON; }
    if t.Nth? { NthText(t.tag, t.n); assert SimpleText(t)[|t.tag|] == COLON; }
    if s.Nth? && t.Nth? {
      var mid, end := Lit(":nth-of-type(")[1..], Lit(")");
      var x, y := mid + Decimal(s.n) + end, mid + Decimal(t.n) + end;
      SplitAtMark(s.tag, x, t.tag, y, COLON);
      assert Decimal(s.n) == x[|mid|..|x| - 1] && Decimal(t.n) == y[|mid|..|y| - 1];
      DecimalReads(s.n);
      DecimalReads(t.n);
    }
  }

  lemma SeparatorStartsWithSpace()
    ensures |Lit(" > ")| == 3 && Lit(" > ")[0] == SPACE
  {
  }

  lemma JoinMany(parts: seq<JsString>, separator: JsString)
    requires |parts| > 1 && |separator| > 0
    ensures Join(parts, separator) ==
            parts[0] + [separator[0]] + (separator[1..] + Join(parts[1..], separator))
  {
    assert separator == [separator[0]] + separator[1..];
  }

  lemma {:induction false} JoinDetermines(ps: seq<JsString>, qs: seq<JsString>)
    requires ps != [] && qs != []
    requires forall i :: 0 <= i < |ps| ==> SPACE !in ps[i]
    requires forall i :: 0 <= i < |qs| ==> SPACE !in qs[i]
    requires Join(ps, Lit(" > ")) == Join(qs, Lit(" > "))
    ensures ps == qs
    decreases |ps|
  {
    var sep := Lit(" > ");
    SeparatorStartsWithSpace();
    if |ps| > 1 { JoinMany(ps, sep); assert Join(ps, sep)[|ps[0]|] == SPACE; }
    if |qs| > 1 { JoinMany(qs, sep); assert Join(qs, sep)[|qs[0]|] == SPACE; }
    if |ps| > 1 && |qs| > 1 {
      var x, y := sep[1..] + Join(ps[1..], sep), sep[1..] + Join(qs[1..], sep);
      SplitAtMark(ps[0], x, qs[0], y, SPACE);
      assert Join(ps[1..], sep) == x[2..] && Join(qs[1..], sep) == y[2..];
      JoinDetermines(ps[1..], qs[1..]);
      assert ps == [ps[0]] + ps[1..] && qs == [qs[0]] + qs[1..];
    }
  }

  /** A locator's text stands for one selector only. */
  lemma TextDetermines(a: Selector, b: Selector)
    requires a != [] && b != [] && AllTags(a) && AllTags(b) && SelectorText(a) == SelectorText(b)
    ensures a == b
  {
    forall i | 0 <= i < |a| ensures SPACE !in Texts(a)[i] { SimpleTextHasNoSpace(a[i]); }
    forall i | 0 <= i < |b| ensures SPACE !in Texts(b)[i] { SimpleTextHasNoSpace(b[i]); }
    JoinDetermines(Texts(a), Texts(b));
    forall i | 0 <= i < |a| ensures a[i] == b[i] {
      assert Texts(a)[i] == Texts(b)[i];
      SimpleTextDetermines(a[i], b[i]);
    }
  }

  // ---------------------------------------------------------------- from the document to the text

  /** The element at `p` as the picker reads it, if it has none of the identifying attributes. */
  function ElementAt(root: Node, p: Path): Element
    requires Valid(root, p)
  {
    var tag := NodeAt(root, p).tag;
    if p == [] then Element(tag, map[], false, 0, 0, NotForm, None, Rect(NaN, NaN, NaN, NaN))
    else
      ParentIsValid(root, p);
      Element(tag, map[], true, Count(NodeAt(root, Parent(p)).kids, tag), Place(root, p) - 1,
              NotForm, None, Rect(NaN, NaN, NaN, NaN))
  }

  function ChainAt(root: Node, p: Path): (chain: seq<Element>)
    requires Valid(root, p)
    ensures |chain| == |p| + 1
    decreases |p|
  {
    if p == [] then [ElementAt(root, p)]
    else ParentIsValid(root, p); [ElementAt(root, p)] + ChainAt(root, Parent(p))
  }

  lemma PartIsPart(native: Option<JsString -> JsString>, root: Node, p: Path)
    requires Valid(root, p)
    ensures LocatorPart(native, ElementAt(root, p)) == SimpleText(PartFor(root, p))
  {
    var e := ElementAt(root, p);
    assert TestAttribute(e, 3) == None && TestAttribute(e, 2) == None && TestAttribute(e, 1) == None;
  }

  lemma {:induction false} PartsAreParts(native: Option<JsString -> JsString>, root: Node, p: Path, n: nat)
    requires Valid(root, p) && 1 <= n <= |p| + 1
    ensures LocatorParts(native, ChainAt(root, p), n) == Texts(Nearest(root, p, n))
    decreases n
  {
    PartIsPart(native, root, p);
    var chain := ChainAt(root, p);
    if n > 1 {
      ParentIsValid(root, p);
      PartsAreParts(native, root, Parent(p), n - 1);
      assert chain[1..] == ChainAt(root, Parent(p));
      assert LocatorParts(native, chain, n) ==
             LocatorParts(native, chain[1..], n - 1) + [LocatorPart(native, chain[0])];
    }
  }

  lemma {:induction false} NearestHasTags(root: Node, p: Path, n: nat)
    requires Valid(root, p) && 1 <= n <= |p| + 1
    requires forall q: Path :: Valid(root, q) ==> IsTag(NodeAt(root, q).tag)
    ensures AllTags(Nearest(root, p, n))
    decreases n
  {
    assert IsTag(NodeAt(root, p).tag);
    if n > 1 {
      ParentIsValid(root, p);
      NearestHasTags(root, Parent(p), n - 1);
    }
  }

  /**
   The text that the picker writes finds its element and no other: whatever selector of tags and
   `:nth-of-type` has that text matches exactly the element it was written for.
   */
  lemma LocatorTextIsUnique(native: Option<JsString -> JsString>, root: Node, p: Path, q: Path, sel: Selector)
    requires Valid(root, p) && Valid(root, q) && RootTagIsUnique(root)
    requires forall r: Path :: Valid(root, r) ==> IsTag(NodeAt(root, r).tag)
    requires |p| + 1 <= 6
    requires |SelectorText(LocatorSelector(root, p))| <= 512
    requires sel != [] && AllTags(sel) && SelectorText(sel) == LocatorText(native, ChainAt(root, p))
    ensures Matches(root, q, sel) <==> q == p
  {
    PartsAreParts(native, root, p, |p| + 1);
    NearestHasTags(root, p, |p| + 1);
    TextDetermines(sel, LocatorSelector(root, p));
    LocatorIsUnique(root, p, q);
  }
}
