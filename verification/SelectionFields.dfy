/** What a selection and a console message say of the page, told on the element and on the call. */
module SelectionFields {
  import opened Prelude
  import opened JsValues
  import opened CssText
  import opened Protocol
  import opened PageText
  import opened Selections

  // ---------------------------------------------------------------- roles

  /** The implicit role of each tag that has one. */
  const ROLES: seq<(string, string)> :=
    [("a", "link"), ("button", "button"), ("dialog", "dialog"), ("img", "img"), ("input", "textbox"),
     ("main", "main"), ("nav", "navigation"), ("select", "combobox"), ("textarea", "textbox")]

  /** The role in the first row, from row i on, with the given tag name. */
  function RowRole(tag: JsString, i: nat): JsValue
    decreases |ROLES| - i
  {
    if i >= |ROLES| then Null
    else if tag == Lit(ROLES[i].0) then Str(Lit(ROLES[i].1))
    else RowRole(tag, i + 1)
  }

  /** A role by tag name; the names that objects inherit find what they inherit. */
  function TagRole(tag: JsString): JsValue {
    if tag == Lit("constructor") then Func
    else if tag == Lit("__proto__") then Obj(true, map[])
    else RowRole(tag, 0)
  }

  lemma LastRows(tag: JsString)
    ensures RowRole(tag, 5) ==
            if tag == Lit("main") then Str(Lit("main"))
            else if tag == Lit("nav") then Str(Lit("navigation"))
            else if tag == Lit("select") then Str(Lit("combobox"))
            else if tag == Lit("textarea") then Str(Lit("textbox"))
            else Null
  {
    assert RowRole(tag, 9) == Null;
    assert RowRole(tag, 8) == if tag == Lit("textarea") then Str(Lit("textbox")) else RowRole(tag, 9);
    assert RowRole(tag, 7) == if tag == Lit("select") then Str(Lit("combobox")) else RowRole(tag, 8);
    assert RowRole(tag, 6) == if tag == Lit("nav") then Str(Lit("navigation")) else RowRole(tag, 7);
  }

  lemma ImplicitRoleIs(tag: JsString)
    ensures ImplicitRole(tag) == TagRole(tag)
  {
    NotInherited();
    LastRows(tag);
    assert RowRole(tag, 4) == if tag == Lit("input") then Str(Lit("textbox")) else RowRole(tag, 5);
    assert RowRole(tag, 3) == if tag == Lit("img") then Str(Lit("img")) else RowRole(tag, 4);
    assert RowRole(tag, 2) == if tag == Lit("dialog") then Str(Lit("dialog")) else RowRole(tag, 3);
    assert RowRole(tag, 1) == if tag == Lit("button") then Str(Lit("button")) else RowRole(tag, 2);
    assert RowRole(tag, 0) == if tag == Lit("a") then Str(Lit("link")) else RowRole(tag, 1);
  }

  /** The role that an input element has by its type. */
  function InputRole(kind: JsString): string {
    if kind == Lit("checkbox") then "checkbox" else if kind == Lit("radio") then "radio" else "textbox"
  }

  /** An explicit role comes first, then the type of an input element, then the tag. */
  ghost function ShownRole(e: Element): JsValue {
    match ShownText(Attribute(e, "role"), 64)
    case Some(text) => Str(text)
    case None => if e.form.Input? then Str(Lit(InputRole(e.form.kind))) else TagRole(e.tag)
  }

  lemma RoleIsShown(e: Element)
    ensures RoleFor(e) == ShownRole(e)
    ensures RoleIsFunction(e) <==> ShownRole(e) == Func
  {
    BoundedTextExactly(Attribute(e, "role"), 64);
    ImplicitRoleIs(e.tag);
    NotInherited();
  }

  // ---------------------------------------------------------------- texts and bounds

  ghost function FirstShown(values: seq<Option<JsString>>, maximum: nat): JsValue {
    if values == [] then Null
    else
      match ShownText(values[0], maximum)
      case Some(text) => Str(text)
      case None => FirstShown(values[1..], maximum)
  }

  lemma NameIsShown(e: Element)
    ensures OrNull(AccessibleNameFor(e)) ==
            FirstShown([Attribute(e, "aria-label"), Attribute(e, "alt"), Attribute(e, "title")], 256)
  {
    var (aria, alt, title) := (Attribute(e, "aria-label"), Attribute(e, "alt"), Attribute(e, "title"));
    BoundedTextExactly(aria, 256);
    BoundedTextExactly(alt, 256);
    BoundedTextExactly(title, 256);
    assert [aria, alt, title][1..] == [alt, title] && [alt, title][1..] == [title];
    OneShown(title, 256);
  }

  lemma OneShown(value: Option<JsString>, maximum: nat)
    ensures FirstShown([value], maximum) == OrNull(ShownText(value, maximum))
  {
    assert [value][1..] == [];
  }

  /** The number nearest to n between two limits; zero for what is no finite number. */
  predicate Clamped(n: JsNumber, low: real, high: real, v: JsValue) {
    && v.Num? && v.n.Finite? && (!n.Finite? ==> v.n.value == 0.0)
    && (n.Finite? ==>
          && (low <= n.value <= high ==> v.n.value == n.value)
          && (n.value < low ==> v.n.value == low)
          && (n.value > high ==> v.n.value == high))
  }

  predicate ShowsBounds(r: Rect, v: JsValue) {
    && v.Obj? && v.plain && v.fields.Keys == {"x", "y", "width", "height"}
    && Clamped(r.x, -1000000.0, 1000000.0, v.fields["x"])
    && Clamped(r.y, -1000000.0, 1000000.0, v.fields["y"])
    && Clamped(r.width, 0.0, 1000000.0, v.fields["width"])
    && Clamped(r.height, 0.0, 1000000.0, v.fields["height"])
  }

  lemma BoundsAreShown(r: Rect)
    ensures ShowsBounds(r, BoundsFor(r))
  {
  }

  ghost function ShownAttribute(e: Element, name: string): Option<JsString> {
    ShownText(Attribute(e, name), 128)
  }

  ghost predicate ShowsAttributes(e: Element, v: JsValue) {
    && v.Obj? && v.plain
    && (forall name :: name in v.fields <==>
          name in ["id", "class", "name", "role", "aria-label", "data-testid", "data-test", "data-cy"] &&
          ShownAttribute(e, name).Some?)
    && (forall name :: name in v.fields && ShownAttribute(e, name).Some? ==>
          v.fields[name] == Str(ShownAttribute(e, name).value))
  }

  lemma AttributesAreShown(e: Element)
    ensures ShowsAttributes(e, Obj(true, AllowedAttributes(e)))
  {
    var fields := AllowedAttributes(e);
    assert ALLOWED_ATTRIBUTES[..|ALLOWED_ATTRIBUTES|] == ALLOWED_ATTRIBUTES;
    forall name
      ensures name in fields <==> name in ALLOWED_ATTRIBUTES && ShownAttribute(e, name).Some?
      ensures name in fields ==> fields[name] == Str(ShownAttribute(e, name).value)
    {
      AttributesAreExact(e, |ALLOWED_ATTRIBUTES|, name);
    }
  }

  // ---------------------------------------------------------------- the selection

  /**
   What a selection says of an element: its tag name, its role, the first of its labels, its text
   unless the user may have typed it, its allowed attributes, its locator, and its rectangle, each
   side clamped for itself.
   */
  ghost predicate Describes(native: Option<JsString -> JsString>, chain: Chain, v: JsValue) {
    var e := chain[0];
    && v.Obj? && v.plain && HasExactKeys(v.fields, SELECTION_KEYS)
    && Field(v, "version") == Num(Finite(1.0))
    && Field(v, "tag") == Str(e.tag)
    && Field(v, "role") == ShownRole(e)
    && Field(v, "accessibleName") ==
       FirstShown([Attribute(e, "aria-label"), Attribute(e, "alt"), Attribute(e, "title")], 256)
    && Field(v, "text") == (if e.form.NotForm? then FirstShown([e.text], 512) else Null)
    && ShowsAttributes(e, Field(v, "attributes"))
    && Field(v, "locator").Str? && Locates(native, chain, Field(v, "locator").s)
    && ShowsBounds(e.bounds, Field(v, "bounds"))
  }

  /** The parts of the nearest six elements, outermost first. */
  predicate AreParts(native: Option<JsString -> JsString>, chain: Chain, parts: seq<JsString>) {
    && |parts| == Min(|chain|, 6)
    && forall i :: 0 <= i < |parts| ==> parts[i] == LocatorPart(native, chain[|parts| - 1 - i])
  }

  /** A locator is made of these parts, up to 512 characters. */
  ghost predicate Locates(native: Option<JsString -> JsString>, chain: Chain, locator: JsString) {
    exists parts ::
      && AreParts(native, chain, parts)
      && var whole := Join(parts, Lit(" > "));
      locator == whole[..Min(|whole|, 512)]
  }

  lemma PartsAreThese(native: Option<JsString -> JsString>, chain: Chain)
    ensures AreParts(native, chain, LocatorParts(native, chain, Min(|chain|, 6)))
  {
  }

  lemma LocatorIsShown(native: Option<JsString -> JsString>, chain: Chain)
    ensures Locates(native, chain, LocatorText(native, chain))
  {
    PartsAreThese(native, chain);
    SliceIsPrefix(WholeLocator(native, chain), 512);
  }

  lemma TextIsShown(e: Element)
    ensures OrNull(if e.form.NotForm? then BoundedText(e.text, MAX_TEXT_LENGTH) else None) ==
            if e.form.NotForm? then FirstShown([e.text], 512) else Null
  {
    BoundedTextExactly(e.text, 512);
    OneShown(e.text, 512);
  }

  /** The selection of an element describes it. */
  lemma SelectionDescribes(native: Option<JsString -> JsString>, chain: Chain)
    ensures Describes(native, chain, SelectionFor(native, chain))
  {
    var e := chain[0];
    RoleIsShown(e);
    NameIsShown(e);
    TextIsShown(e);
    AttributesAreShown(e);
    LocatorIsShown(native, chain);
    BoundsAreShown(e.bounds);
    RecordIsDescribed(
      e.tag, RoleFor(e), OrNull(AccessibleNameFor(e)),
      OrNull(if e.form.NotForm? then BoundedText(e.text, MAX_TEXT_LENGTH) else None),
      Obj(true, AllowedAttributes(e)), LocatorText(native, chain), BoundsFor(e.bounds));
  }

  lemma RecordIsDescribed(
    tag: JsString, role: JsValue, name: JsValue, text: JsValue, attributes: JsValue, locator: JsString, bounds: JsValue)
    ensures var r := SelectionRecord(tag, role, name, text, attributes, locator, bounds);
            && r.Obj? && r.plain && HasExactKeys(r.fields, SELECTION_KEYS)
            && Field(r, "version") == Num(Finite(1.0))
            && Field(r, "tag") == Str(tag) && Field(r, "role") == role
            && Field(r, "accessibleName") == name && Field(r, "text") == text
            && Field(r, "attributes") == attributes && Field(r, "locator") == Str(locator)
            && Field(r, "bounds") == bounds
  {
    RecordFields(tag, role, name, text, attributes, locator, bounds);
    RecordKeys(tag, role, name, text, attributes, locator, bounds);
  }

  // ---------------------------------------------------------------- locator parts

  /** The escaped text of a locator part reads back as the value: by the browser's own rule, or by CSS's. */
  predicate Escapes(native: Option<JsString -> JsString>, value: JsString, escaped: JsString) {
    match native
    case Some(escape) => escaped == escape(value)
    case None => Decode(escaped) == RepairAll(CodePoints(value))
  }

  lemma EscapeReadsBack(native: Option<JsString -> JsString>, value: JsString)
    ensures Escapes(native, value, Escape(native, value))
  {
    if native.None? { DecodeEscapes(CodePoints(value)); }
  }

  /** The first of the test attributes with a text to show, in the order in which they are tried. */
  ghost function FirstTest(e: Element): Option<string> {
    if ShownAttribute(e, "data-testid").Some? then Some("data-testid")
    else if ShownAttribute(e, "data-test").Some? then Some("data-test")
    else if ShownAttribute(e, "data-cy").Some? then Some("data-cy")
    else None
  }

  lemma TestAttributeIsFirst(e: Element)
    ensures TestAttribute(e, 0) ==
            match FirstTest(e)
            case None => None
            case Some(name) => Some((name, ShownAttribute(e, name).value))
  {
    BoundedTextExactly(Attribute(e, "data-testid"), 128);
    BoundedTextExactly(Attribute(e, "data-test"), 128);
    BoundedTextExactly(Attribute(e, "data-cy"), 128);
    assert TestAttribute(e, 3) == None;
    assert TestAttribute(e, 2) == OneTest(e, "data-cy", TestAttribute(e, 3));
    assert TestAttribute(e, 1) == OneTest(e, "data-test", TestAttribute(e, 2));
    assert TestAttribute(e, 0) == OneTest(e, "data-testid", TestAttribute(e, 1));
  }

  function OneTest(e: Element, name: string, otherwise: Option<(string, JsString)>): Option<(string, JsString)> {
    match BoundedText(Attribute(e, name), 128) case Some(value) => Some((name, value)) case None => otherwise
  }

  /**
   The part for an element names it by its first test attribute, else by its id, else by its tag
   name and, if siblings share it, by its place among them.
   */
  lemma LocatorPartNames(native: Option<JsString -> JsString>, e: Element) returns (escaped: JsString)
    ensures match FirstTest(e)
            case Some(name) =>
              && ShownAttribute(e, name).Some? && Escapes(native, ShownAttribute(e, name).value, escaped)
              && LocatorPart(native, e) == e.tag + Lit("[") + Lit(name) + Lit("=\"") + escaped + Lit("\"]")
            case None =>
              match ShownAttribute(e, "id")
              case Some(id) => Escapes(native, id, escaped) && LocatorPart(native, e) == Lit("#") + escaped
              case None =>
                LocatorPart(native, e) ==
                if e.hasParent && e.sameTag > 1
                then e.tag + Lit(":nth-of-type(") + Decimal(e.index + 1) + Lit(")")
                else e.tag
  {
    TestAttributeIsFirst(e);
    BoundedTextExactly(Attribute(e, "id"), 128);
    var value := if FirstTest(e).Some? then ShownAttribute(e, FirstTest(e).value).value
                 else if ShownAttribute(e, "id").Some? then ShownAttribute(e, "id").value else [];
    escaped := Escape(native, value);
    EscapeReadsBack(native, value);
  }

  // ---------------------------------------------------------------- console messages

  predicate IsSpaced(s: JsString, spaced: JsString) {
    && |spaced| == |s|
    && forall i :: 0 <= i < |s| ==> spaced[i] == if s[i] <= 0x1F || s[i] == 0x7F then 0x20 else s[i]
  }

  /**
   A console message is made of the first four arguments, one space apart, with control characters
   turned into spaces: what redaction leaves of that, without the spaces at both ends, up to 512
   characters.
   */
  ghost predicate Says(previews: seq<JsString>, redact: JsString -> JsString, message: JsString) {
    exists spaced, before, shown, after ::
      && IsSpaced(Join(previews[..Min(4, |previews|)], [0x20]), spaced)
      && IsTrimmed(redact(spaced), before, shown, after)
      && message == if shown == [] then Lit("(empty console message)") else shown[..Min(|shown|, 512)]
  }

  predicate IsTrimmed(s: JsString, before: JsString, shown: JsString, after: JsString) {
    && s == before + shown + after && AllSpaces(before) && AllSpaces(after)
    && (shown != [] ==> !IsSpace(shown[0]) && !IsSpace(shown[|shown| - 1]))
  }

  lemma MessageSays(previews: seq<JsString>, redact: JsString -> JsString)
    ensures Says(previews, redact, BoundedMessage(previews, redact))
  {
    var first := if |previews| <= 4 then previews else previews[..4];
    assert first == previews[..Min(4, |previews|)];
    var spaced := Spaced(Join(first, [SPACE]));
    assert IsSpaced(Join(first, [0x20]), spaced);
    var before, after := TrimExactly(redact(spaced));
    var shown := Trim(redact(spaced));
    assert IsTrimmed(redact(spaced), before, shown, after);
    SliceIsPrefix(shown, 512);
  }
}
