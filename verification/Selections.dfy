/** What the picker and the console observer make of a page, and that the protocol accepts it. */
module Selections {
  import opened Prelude
  import opened JsValues
  import opened CssText
  import opened PageText
  import opened Protocol

  // ---------------------------------------------------------------- elements

  datatype FormKind = NotForm | Input(kind: JsString) | TextArea | Select

  datatype Rect = Rect(x: JsNumber, y: JsNumber, width: JsNumber, height: JsNumber)

  /**
   An element as the picker reads it: `tag` is its lower-cased tag name, `sameTag` the number of
   its parent's children with its tag name and `index` its place among them.
   */
  datatype Element = Element(
    tag: JsString,
    attributes: map<string, JsString>,
    hasParent: bool,
    sameTag: nat,
    index: nat,
    form: FormKind,
    text: Option<JsString>,
    bounds: Rect)

  function Attribute(e: Element, name: string): Option<JsString> {
    if name in e.attributes then Some(e.attributes[name]) else None
  }

  /** The element, its parent, and so on upward, through shadow roots to their hosts. */
  type Chain = c: seq<Element> | |c| >= 1
    witness [Element([], map[], false, 0, 0, NotForm, None, Rect(NaN, NaN, NaN, NaN))]

  // ---------------------------------------------------------------- locators

  /** `n.toString()`. */
  function Decimal(n: nat): JsString {
    if n < 10 then [0x30 + n] else Decimal(n / 10) + [0x30 + n % 10]
  }

  const TEST_ATTRIBUTES: seq<string> := ["data-testid", "data-test", "data-cy"]

  function TestAttribute(e: Element, from: nat): Option<(string, JsString)>
    decreases |TEST_ATTRIBUTES| - from
  {
    if from >= |TEST_ATTRIBUTES| then None
    else
      match BoundedText(Attribute(e, TEST_ATTRIBUTES[from]), MAX_ATTRIBUTE_VALUE_LENGTH)
      case Some(value) => Some((TEST_ATTRIBUTES[from], value))
      case None => TestAttribute(e, from + 1)
  }

  /** `cssEscape`: the browser's own escape if there is one. */
  function Escape(native: Option<JsString -> JsString>, value: JsString): JsString {
    match native
    case Some(escape) => escape(value)
    case None => CssEscape(value)
  }

  /** `locatorPart`. */
  function LocatorPart(native: Option<JsString -> JsString>, e: Element): JsString {
    match TestAttribute(e, 0)
    case Some(found) => e.tag + Lit("[") + Lit(found.0) + Lit("=\"") + Escape(native, found.1) + Lit("\"]")
    case None =>
      match BoundedText(Attribute(e, "id"), MAX_ATTRIBUTE_VALUE_LENGTH)
      case Some(id) => Lit("#") + Escape(native, id)
      case None =>
        if e.hasParent && e.sameTag > 1
        then e.tag + Lit(":nth-of-type(") + Decimal(e.index + 1) + Lit(")")
        else e.tag
  }

  /** The parts of the nearest `n` elements of a chain, outermost first. */
  function LocatorParts(native: Option<JsString -> JsString>, chain: seq<Element>, n: nat): seq<JsString>
    requires n <= |chain|
  {
    seq(n, i requires 0 <= i < n => LocatorPart(native, chain[n - 1 - i]))
  }

  /** The locator before it is cut to its limit. */
  function WholeLocator(native: Option<JsString -> JsString>, chain: Chain): JsString {
    Join(LocatorParts(native, chain, Min(|chain|, MAX_LOCATOR_DEPTH)), Lit(" > "))
  }

  function LocatorText(native: Option<JsString -> JsString>, chain: Chain): JsString {
    Slice(WholeLocator(native, chain), MAX_LOCATOR_LENGTH)
  }

  /** `locatorFor`: walk upward and put each part in front. */
  method LocatorFor(native: Option<JsString -> JsString>, chain: Chain) returns (locator: JsString)
    ensures locator == LocatorText(native, chain)
  {
    var parts: seq<JsString> := [];
    var current := 0;
    while current < |chain| && |parts| < MAX_LOCATOR_DEPTH
      invariant 0 <= current <= |chain| && current == |parts| <= MAX_LOCATOR_DEPTH
      invariant parts == LocatorParts(native, chain, current)
    {
      parts := [LocatorPart(native, chain[current])] + parts;
      current := current + 1;
    }
    locator := Slice(Join(parts, Lit(" > ")), MAX_LOCATOR_LENGTH);
  }

  // ---------------------------------------------------------------- selections

  /** A property lookup in the object literal `IMPLICIT_ROLES`; it also finds `Object.prototype`'s members. */
  function ImplicitRole(tag: JsString): JsValue {
    if tag == Lit("a") then Str(Lit("link"))
    else if tag == Lit("button") then Str(Lit("button"))
    else if tag == Lit("dialog") then Str(Lit("dialog"))
    else if tag == Lit("img") then Str(Lit("img"))
    else if tag == Lit("input") then Str(Lit("textbox"))
    else if tag == Lit("main") then Str(Lit("main"))
    else if tag == Lit("nav") then Str(Lit("navigation"))
    else if tag == Lit("select") then Str(Lit("combobox"))
    else if tag == Lit("textarea") then Str(Lit("textbox"))
    else if tag == Lit("constructor") then Func
    else if tag == Lit("__proto__") then Obj(true, map[])
    else Null
  }

  function RoleFor(e: Element): JsValue {
    match BoundedText(Attribute(e, "role"), 64)
    case Some(role) => Str(role)
    case None =>
      if e.form.Input? then
        Str(if e.form.kind == Lit("checkbox") then Lit("checkbox")
            else if e.form.kind == Lit("radio") then Lit("radio")
            else Lit("textbox"))
      else ImplicitRole(e.tag)
  }

  function OrNull(s: Option<JsString>): JsValue {
    match s case Some(text) => Str(text) case None => Null
  }

  function AccessibleNameFor(e: Element): Option<JsString> {
    match BoundedText(Attribute(e, "aria-label"), MAX_ACCESSIBLE_NAME_LENGTH)
    case Some(name) => Some(name)
    case None =>
      match BoundedText(Attribute(e, "alt"), MAX_ACCESSIBLE_NAME_LENGTH)
      case Some(name) => Some(name)
      case None => BoundedText(Attribute(e, "title"), MAX_ACCESSIBLE_NAME_LENGTH)
  }

  function AllowedText(e: Element, name: string): Option<JsString> {
    BoundedText(Attribute(e, name), MAX_ATTRIBUTE_VALUE_LENGTH)
  }

  /** What the first `n` allowed names contribute. */
  function AttributesUpTo(e: Element, n: nat): (m: map<string, JsValue>)
    requires n <= |ALLOWED_ATTRIBUTES|
    ensures |m| <= n
  {
    if n == 0 then map[]
    else
      var (m, name) := (AttributesUpTo(e, n - 1), ALLOWED_ATTRIBUTES[n - 1]);
      match AllowedText(e, name)
      case None => m
      case Some(text) => CardinalityGrows(m, name, Str(text)); m[name := Str(text)]
  }

  function AllowedAttributes(e: Element): map<string, JsValue> {
    AttributesUpTo(e, |ALLOWED_ATTRIBUTES|)
  }

  lemma CardinalityGrows(m: map<string, JsValue>, name: string, v: JsValue)
    ensures |m[name := v]| <= |m| + 1
  {
    var m' := m[name := v];
    assert m'.Keys == m.Keys + {name};
    assert |m'| == |m'.Keys| && |m| == |m.Keys|;
    if name in m.Keys { assert m'.Keys == m.Keys; }
  }

  lemma OneMoreAttribute(e: Element, n: nat)
    requires n < |ALLOWED_ATTRIBUTES|
    ensures AttributesUpTo(e, n + 1) ==
            match AllowedText(e, ALLOWED_ATTRIBUTES[n])
            case None => AttributesUpTo(e, n)
            case Some(text) => AttributesUpTo(e, n)[ALLOWED_ATTRIBUTES[n] := Str(text)]
  {
  }

  /** `allowedAttributes`: the loop never stops at its limit, because only eight names are allowed. */
  method CollectAttributes(e: Element) returns (attributes: map<string, JsValue>)
    ensures attributes == AllowedAttributes(e)
  {
    attributes := map[];
    for i := 0 to |ALLOWED_ATTRIBUTES|
      invariant attributes == AttributesUpTo(e, i)
    {
      if |attributes| >= MAX_ATTRIBUTE_COUNT {
        break;
      }
      var value := AllowedText(e, ALLOWED_ATTRIBUTES[i]);
      OneMoreAttribute(e, i);
      if value.Some? {
        attributes := attributes[ALLOWED_ATTRIBUTES[i] := Str(value.value)];
      }
    }
  }

  /** Exactly the allowed attributes with a text to show are collected, each with its own text. */
  lemma {:induction false} AttributesAreExact(e: Element, n: nat, name: string)
    requires n <= |ALLOWED_ATTRIBUTES|
    ensures var (m, shown) := (AttributesUpTo(e, n), ShownText(Attribute(e, name), 128));
            && (name in m <==> name in ALLOWED_ATTRIBUTES[..n] && shown.Some?)
            && (name in m ==> m[name] == Str(shown.value))
  {
    if n > 0 {
      AttributesAreExact(e, n - 1, name);
      BoundedTextExactly(Attribute(e, name), 128);
      assert ALLOWED_ATTRIBUTES[..n] == ALLOWED_ATTRIBUTES[..n - 1] + [ALLOWED_ATTRIBUTES[n - 1]];
    }
  }

  function BoundedCoordinate(n: JsNumber): JsValue {
    if !n.Finite? then Num(Finite(0.0))
    else if n.value < -MAX_BOUND then Num(Finite(-MAX_BOUND))
    else if n.value > MAX_BOUND then Num(Finite(MAX_BOUND))
    else Num(n)
  }

  function BoundedSize(n: JsNumber): JsValue {
    if !n.Finite? then Num(Finite(0.0))
    else if n.value < 0.0 then Num(Finite(0.0))
    else if n.value > MAX_BOUND then Num(Finite(MAX_BOUND))
    else Num(n)
  }

  function BoundsFor(r: Rect): JsValue {
    Obj(true, map["x" := BoundedCoordinate(r.x), "y" := BoundedCoordinate(r.y),
                  "width" := BoundedSize(r.width), "height" := BoundedSize(r.height)])
  }

  function SelectionRecord(
    tag: JsString, role: JsValue, name: JsValue, text: JsValue, attributes: JsValue, locator: JsString, bounds: JsValue)
    : JsValue
  {
    Obj(true, map[
      "version" := VERSION, "tag" := Str(tag), "role" := role, "accessibleName" := name, "text" := text,
      "attributes" := attributes, "locator" := Str(locator), "bounds" := bounds])
  }

  /** `selectionFor`. */
  function SelectionFor(native: Option<JsString -> JsString>, chain: Chain): JsValue {
    var e := chain[0];
    SelectionRecord(
      e.tag,
      RoleFor(e),
      OrNull(AccessibleNameFor(e)),
      OrNull(if e.form.NotForm? then BoundedText(e.text, MAX_TEXT_LENGTH) else None),
      Obj(true, AllowedAttributes(e)),
      LocatorText(native, chain),
      BoundsFor(e.bounds))
  }

  // ---------------------------------------------------------------- acceptance

  /** The browser's own escape introduces no control characters. */
  ghost predicate EscapesCleanly(native: Option<JsString -> JsString>) {
    native.Some? ==> forall s :: NoControl(s) ==> NoControl(native.value(s))
  }

  /** The locator part of an element shows its tag name; with an id it shows only that. */
  predicate PrintsTag(e: Element) {
    TestAttribute(e, 0).Some? || BoundedText(Attribute(e, "id"), MAX_ATTRIBUTE_VALUE_LENGTH).None?
  }

  /** No tag name that a locator shows has a control character. */
  predicate CleanTags(chain: seq<Element>) {
    forall i :: 0 <= i < Min(|chain|, MAX_LOCATOR_DEPTH) && PrintsTag(chain[i]) ==> NoControl(chain[i].tag)
  }

  lemma {:induction false} LitIsClean(text: string)
    requires forall i :: 0 <= i < |text| ==> ' ' <= text[i] < '~'
    ensures NoControl(Lit(text))
  {
  }

  lemma {:induction false} DecimalIsClean(n: nat)
    ensures NoControl(Decimal(n))
  {
    if n >= 10 { DecimalIsClean(n / 10); }
  }

  lemma EscapeIsCleanText(native: Option<JsString -> JsString>, s: JsString)
    requires EscapesCleanly(native) && NoControl(s)
    ensures NoControl(Escape(native, s))
  {
    if native.None? { EscapeIsClean(CodePoints(s)); }
  }

  lemma {:induction false} TestAttributeIsBounded(e: Element, from: nat)
    ensures TestAttribute(e, from).Some? ==>
              TestAttribute(e, from).value.0 in TEST_ATTRIBUTES &&
              NoControl(TestAttribute(e, from).value.1)
    decreases |TEST_ATTRIBUTES| - from
  {
    if from < |TEST_ATTRIBUTES| {
      BoundedTextIsBounded(Attribute(e, TEST_ATTRIBUTES[from]), MAX_ATTRIBUTE_VALUE_LENGTH);
      TestAttributeIsBounded(e, from + 1);
    }
  }

  lemma TestPartIsClean(tag: JsString, name: string, value: JsString)
    requires name in TEST_ATTRIBUTES && NoControl(value)
    ensures NoControl(tag + Lit("[") + Lit(name) + Lit("=\"") + value + Lit("\"]")) <==> NoControl(tag)
  {
    LitIsClean("[");
    ConcatNoControl(tag, Lit("["));
    LitIsClean(name);
    ConcatNoControl(tag + Lit("["), Lit(name));
    LitIsClean("=\"");
    ConcatNoControl(tag + Lit("[") + Lit(name), Lit("=\""));
    ConcatNoControl(tag + Lit("[") + Lit(name) + Lit("=\""), value);
    LitIsClean("\"]");
    ConcatNoControl(tag + Lit("[") + Lit(name) + Lit("=\"") + value, Lit("\"]"));
  }

  lemma NthPartIsClean(tag: JsString, n: nat)
    ensures NoControl(tag + Lit(":nth-of-type(") + Decimal(n) + Lit(")")) <==> NoControl(tag)
  {
    LitIsClean(":nth-of-type(");
    ConcatNoControl(tag, Lit(":nth-of-type("));
    DecimalIsClean(n);
    ConcatNoControl(tag + Lit(":nth-of-type("), Decimal(n));
    LitIsClean(")");
    ConcatNoControl(tag + Lit(":nth-of-type(") + Decimal(n), Lit(")"));
  }

  lemma LocatorPartIsClean(native: Option<JsString -> JsString>, e: Element)
    requires EscapesCleanly(native)
    ensures NoControl(LocatorPart(native, e)) <==> (PrintsTag(e) ==> NoControl(e.tag))
  {
    var id := BoundedText(Attribute(e, "id"), MAX_ATTRIBUTE_VALUE_LENGTH);
    if TestAttribute(e, 0).Some? {
      var (name, value) := TestAttribute(e, 0).value;
      TestAttributeIsBounded(e, 0);
      EscapeIsCleanText(native, value);
      TestPartIsClean(e.tag, name, Escape(native, value));
    } else if id.Some? {
      BoundedTextIsBounded(Attribute(e, "id"), MAX_ATTRIBUTE_VALUE_LENGTH);
      EscapeIsCleanText(native, id.value);
      LitIsClean("#");
      ConcatNoControl(Lit("#"), Escape(native, id.value));
    } else {
      NthPartIsClean(e.tag, e.index + 1);
    }
  }

  /** A locator is never too long, and not empty if the element has a tag name. */
  lemma LocatorIsBounded(native: Option<JsString -> JsString>, chain: Chain)
    ensures |LocatorText(native, chain)| <= MAX_LOCATOR_LENGTH
    ensures chain[0].tag != [] ==> LocatorText(native, chain) != []
  {
    var n := Min(|chain|, MAX_LOCATOR_DEPTH);
    var parts := LocatorParts(native, chain, n);
    if n == 1 {
      assert parts[0] == LocatorPart(native, chain[0]);
    } else {
      assert Join(parts, Lit(" > ")) == parts[0] + Lit(" > ") + Join(parts[1..], Lit(" > "));
    }
  }

  /**
   A whole locator is free of control characters exactly if the tag names it shows are; cutting
   it cannot add any.
   */
  lemma LocatorIsCleanExactly(native: Option<JsString -> JsString>, chain: Chain)
    requires EscapesCleanly(native)
    ensures NoControl(WholeLocator(native, chain)) <==> CleanTags(chain)
    ensures CleanTags(chain) ==> NoControl(LocatorText(native, chain))
    ensures |WholeLocator(native, chain)| <= MAX_LOCATOR_LENGTH ==>
              (NoControl(LocatorText(native, chain)) <==> CleanTags(chain))
  {
    var n := Min(|chain|, MAX_LOCATOR_DEPTH);
    LitIsClean(" > ");
    JoinNoControl(LocatorParts(native, chain, n), Lit(" > "));
    PartsAreCleanExactly(native, chain, n);
  }

  lemma PartsAreCleanExactly(native: Option<JsString -> JsString>, chain: Chain, n: nat)
    requires EscapesCleanly(native) && n == Min(|chain|, MAX_LOCATOR_DEPTH)
    ensures (forall i :: 0 <= i < n ==> NoControl(LocatorParts(native, chain, n)[i])) <==> CleanTags(chain)
  {
    var parts := LocatorParts(native, chain, n);
    forall i | 0 <= i < n
      ensures NoControl(parts[n - 1 - i]) <==> (PrintsTag(chain[i]) ==> NoControl(chain[i].tag))
    {
      LocatorPartIsClean(native, chain[i]);
    }
    if forall i :: 0 <= i < n ==> NoControl(parts[i]) {
      forall i | 0 <= i < n && PrintsTag(chain[i]) ensures NoControl(chain[i].tag) {
        assert NoControl(parts[n - 1 - i]);
      }
    }
    if CleanTags(chain) {
      forall i | 0 <= i < n ensures NoControl(parts[i]) {
        assert parts[i] == parts[n - 1 - (n - 1 - i)];
      }
    }
  }

  lemma AttributesAccepted(e: Element)
    ensures IsAttributes(Obj(true, AllowedAttributes(e)))
  {
    var fields := AllowedAttributes(e);
    forall name | name in fields
      ensures name in ALLOWED_ATTRIBUTES && IsBoundedString(fields[name], MAX_ATTRIBUTE_VALUE_LENGTH)
    {
      AttributesAreExact(e, |ALLOWED_ATTRIBUTES|, name);
      BoundedTextExactly(Attribute(e, name), MAX_ATTRIBUTE_VALUE_LENGTH);
      BoundedTextIsBounded(Attribute(e, name), MAX_ATTRIBUTE_VALUE_LENGTH);
    }
  }

  lemma BoundsAccepted(r: Rect)
    ensures IsBounds(BoundsFor(r))
  {
    var fields := BoundsFor(r).fields;
    assert fields.Keys == {"x", "y", "width", "height"};
    assert |fields| == |fields.Keys| == 4;
  }

  /** The lookup that finds a function instead of a role. */
  predicate RoleIsFunction(e: Element) {
    && BoundedText(Attribute(e, "role"), 64).None?
    && !e.form.Input?
    && e.tag == Lit("constructor")
  }

  /** The lookup finds `Object.prototype` itself. */
  predicate RoleIsPrototype(e: Element) {
    && BoundedText(Attribute(e, "role"), 64).None?
    && !e.form.Input?
    && e.tag == Lit("__proto__")
  }

  lemma RoleAccepted(e: Element)
    ensures NullOr(RoleFor(e), MAX_ATTRIBUTE_VALUE_LENGTH) <==> !RoleIsFunction(e) && !RoleIsPrototype(e)
  {
    BoundedTextIsBounded(Attribute(e, "role"), 64);
    LitIsClean("link");
    LitIsClean("button");
    LitIsClean("dialog");
    LitIsClean("img");
    LitIsClean("textbox");
    LitIsClean("main");
    LitIsClean("navigation");
    LitIsClean("combobox");
    LitIsClean("checkbox");
    LitIsClean("radio");
    NotInherited();
  }

  /** No name of the role table is a name that `Object.prototype` has. */
  lemma NotInherited()
    ensures forall tag :: tag == Lit("constructor") || tag == Lit("__proto__") ==>
              tag !in [Lit("a"), Lit("button"), Lit("dialog"), Lit("img"), Lit("input"), Lit("main"), Lit("nav"),
                       Lit("select"), Lit("textarea")]
    ensures Lit("constructor") != Lit("__proto__")
  {
    assert Lit("__proto__")[0] == 0x5F;
  }

  lemma PrototypeIsNoTag()
    ensures !IsTag(Lit("__proto__"))
  {
    assert Lit("__proto__")[0] == 0x5F;
  }

  lemma FiveKeys()
    ensures |{"version", "tag", "role", "accessibleName", "text"}| == 5
  {
  }

  lemma EightKeys()
    ensures |{"version", "tag", "role", "accessibleName", "text", "attributes", "locator", "bounds"}| == 8
  {
    FiveKeys();
    var five, three := {"version", "tag", "role", "accessibleName", "text"}, {"attributes", "locator", "bounds"};
    assert five !! three && |three| == 3;
    assert {"version", "tag", "role", "accessibleName", "text", "attributes", "locator", "bounds"} == five + three;
  }

  lemma RecordKeys(
    tag: JsString, role: JsValue, name: JsValue, text: JsValue, attributes: JsValue, locator: JsString, bounds: JsValue)
    ensures HasExactKeys(SelectionRecord(tag, role, name, text, attributes, locator, bounds).fields, SELECTION_KEYS)
  {
    var fields := SelectionRecord(tag, role, name, text, attributes, locator, bounds).fields;
    assert fields.Keys == {"version", "tag", "role", "accessibleName", "text", "attributes", "locator", "bounds"};
    EightKeys();
    assert |fields| == |fields.Keys|;
  }

  lemma RecordFields(
    tag: JsString, role: JsValue, name: JsValue, text: JsValue, attributes: JsValue, locator: JsString, bounds: JsValue)
    ensures var r := SelectionRecord(tag, role, name, text, attributes, locator, bounds);
            && IsPlainRecord(r) && Field(r, "version") == VERSION
            && Field(r, "tag") == Str(tag) && Field(r, "role") == role
            && Field(r, "accessibleName") == name && Field(r, "text") == text
            && Field(r, "attributes") == attributes && Field(r, "locator") == Str(locator)
            && Field(r, "bounds") == bounds
  {
  }

  lemma RecordAccepted(
    tag: JsString, role: JsValue, name: JsValue, text: JsValue, attributes: JsValue, locator: JsString, bounds: JsValue)
    ensures IsSelection(SelectionRecord(tag, role, name, text, attributes, locator, bounds)) <==>
            && IsTag(tag)
            && NullOr(role, MAX_ATTRIBUTE_VALUE_LENGTH)
            && NullOr(name, MAX_ACCESSIBLE_NAME_LENGTH)
            && NullOr(text, MAX_TEXT_LENGTH)
            && IsAttributes(attributes)
            && BoundedString(locator, MAX_LOCATOR_LENGTH)
            && IsBounds(bounds)
  {
    RecordFields(tag, role, name, text, attributes, locator, bounds);
    RecordKeys(tag, role, name, text, attributes, locator, bounds);
  }

  lemma NameAccepted(e: Element)
    ensures NullOr(OrNull(AccessibleNameFor(e)), MAX_ACCESSIBLE_NAME_LENGTH)
  {
    BoundedTextIsBounded(Attribute(e, "aria-label"), MAX_ACCESSIBLE_NAME_LENGTH);
    BoundedTextIsBounded(Attribute(e, "alt"), MAX_ACCESSIBLE_NAME_LENGTH);
    BoundedTextIsBounded(Attribute(e, "title"), MAX_ACCESSIBLE_NAME_LENGTH);
  }

  /**
   The validator accepts the selection of an element, whatever its attributes, text and bounds,
   if and only if its tag name has the protocol's form, the role lookup does not find
   `Object.prototype.constructor`, and the locator shows no control character.
   */
  lemma SelectionAccepted(native: Option<JsString -> JsString>, chain: Chain)
    ensures IsSelection(SelectionFor(native, chain)) <==>
            IsTag(chain[0].tag) && !RoleIsFunction(chain[0]) && NoControl(LocatorText(native, chain))
  {
    var e := chain[0];
    RecordAccepted(
      e.tag, RoleFor(e), OrNull(AccessibleNameFor(e)),
      OrNull(if e.form.NotForm? then BoundedText(e.text, MAX_TEXT_LENGTH) else None),
      Obj(true, AllowedAttributes(e)), LocatorText(native, chain), BoundsFor(e.bounds));
    RoleAccepted(e);
    PrototypeIsNoTag();
    NameAccepted(e);
    BoundedTextIsBounded(e.text, MAX_TEXT_LENGTH);
    AttributesAccepted(e);
    LocatorIsBounded(native, chain);
    BoundsAccepted(e.bounds);
  }

  lemma ConstructorIsTag()
    ensures IsTag(Lit("constructor"))
  {
  }

  /** An element named `constructor` is a well-formed tag whose selection is rejected. */
  lemma ConstructorElementRejected()
    ensures IsTag(Lit("constructor"))
    ensures var e := Element(Lit("constructor"), map[], false, 1, 0, NotForm, None, Rect(NaN, NaN, NaN, NaN));
            !IsSelection(SelectionFor(None, [e]))
  {
    var e := Element(Lit("constructor"), map[], false, 1, 0, NotForm, None, Rect(NaN, NaN, NaN, NaN));
    ConstructorIsTag();
    SelectionAccepted(None, [e]);
  }

  /** An element without attributes. */
  function Bare(tag: JsString, hasParent: bool): Element {
    Element(tag, map[], hasParent, 1, 0, NotForm, None, Rect(NaN, NaN, NaN, NaN))
  }

  lemma BarePart(tag: JsString, hasParent: bool)
    ensures PrintsTag(Bare(tag, hasParent)) && LocatorPart(None, Bare(tag, hasParent)) == tag
  {
    var e := Bare(tag, hasParent);
    assert TestAttribute(e, 3) == None && TestAttribute(e, 2) == None && TestAttribute(e, 1) == None;
  }

  /** A `b` inside an element whose tag name has a control character, which an HTML parser keeps, is rejected. */
  lemma ControlTagRejected()
    ensures var (b, x) := (Bare(Lit("b"), true), Bare(Lit("x") + [1], false));
            IsTag(b.tag) && !RoleIsFunction(b) && !IsSelection(SelectionFor(None, [b, x]))
  {
    var (b, x) := (Bare(Lit("b"), true), Bare(Lit("x") + [1], false));
    BarePart(b.tag, true);
    BarePart(x.tag, false);
    var chain: Chain := [b, x];
    assert LocatorParts(None, chain, 2) == [x.tag, b.tag];
    JoinTwo(x.tag, b.tag, Lit(" > "));
    assert |WholeLocator(None, chain)| == 6;
    assert chain[1] == x && x.tag[1] == 1;
    LocatorIsCleanExactly(None, chain);
    SelectionAccepted(None, chain);
  }

  lemma JoinTwo(a: JsString, b: JsString, separator: JsString)
    ensures Join([a, b], separator) == a + separator + b
  {
    assert [a, b][1..] == [b];
  }

  // ---------------------------------------------------------------- console messages

  const EMPTY_MESSAGE := Lit("(empty console message)")

  /** `replace(/[\u0000-\u001F\u007F]/g, " ")`. */
  function Spaced(s: JsString): (r: JsString)
    ensures |r| == |s| && NoControl(r)
  {
    seq(|s|, i requires 0 <= i < |s| => if IsControl(s[i]) then SPACE else s[i])
  }

  /** `boundedMessage` of the previews of its arguments; `redact` stands for the credential patterns. */
  function BoundedMessage(previews: seq<JsString>, redact: JsString -> JsString): JsString {
    var joined := Join(if |previews| <= 4 then previews else previews[..4], [SPACE]);
    var message := Trim(redact(Spaced(joined)));
    Slice(if message == [] then EMPTY_MESSAGE else message, MAX_TEXT_LENGTH)
  }

  /** Every console message is accepted, whatever was logged, if redaction adds no control characters. */
  lemma ConsoleMessageAccepted(previews: seq<JsString>, redact: JsString -> JsString)
    requires forall s :: NoControl(s) ==> NoControl(redact(s))
    ensures BoundedString(BoundedMessage(previews, redact), MAX_TEXT_LENGTH)
  {
    var joined := Join(if |previews| <= 4 then previews else previews[..4], [SPACE]);
    var redacted := redact(Spaced(joined));
    assert NoControl(redacted);
    TrimIsClean(redacted);
    TrimIsClean(TrimStart(redacted));
    LitIsClean("(empty console message)");
    var message := if Trim(redacted) == [] then EMPTY_MESSAGE else Trim(redacted);
    SliceIsClean(message, MAX_TEXT_LENGTH);
    assert BoundedMessage(previews, redact) == Slice(message, MAX_TEXT_LENGTH);
  }

  lemma SliceIsClean(s: JsString, n: nat)
    requires NoControl(s)
    ensures NoControl(Slice(s, n)) && |Slice(s, n)| == Min(|s|, n)
  {
  }
}
