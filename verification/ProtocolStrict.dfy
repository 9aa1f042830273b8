/**
 How strict the validators are: they accept exactly the encodings of typed values within bounds,
 and nothing else of all JavaScript values.
 */
module ProtocolStrict {
  import opened Prelude
  import opened JsValues
  import opened Protocol
  import opened Selections

  /** Not empty, not too long, and without control characters. */
  predicate Readable(s: JsString, max: nat) {
    0 < |s| <= max && forall u :: u in s ==> 0x20 <= u && u != 0x7F
  }

  predicate ReadableOrNone(s: Option<JsString>, max: nat) {
    s.Some? ==> Readable(s.value, max)
  }

  lemma ReadableExactly(s: JsString, max: nat)
    ensures BoundedString(s, max) <==> Readable(s, max)
  {
    if Readable(s, max) {
      forall i | 0 <= i < |s| ensures !IsControl(s[i]) { assert s[i] in s; }
    }
  }

  lemma NullOrExactly(v: JsValue, max: nat) returns (s: Option<JsString>)
    ensures NullOr(v, max) <==> v == OrNull(s) && ReadableOrNone(s, max)
  {
    s := if v.Str? then Some(v.s) else None;
    if s.Some? { ReadableExactly(s.value, max); }
  }

  // ---------------------------------------------------------------- keys

  predicate Distinct(keys: seq<string>) {
    forall i, j :: 0 <= i < j < |keys| ==> keys[i] != keys[j]
  }

  lemma {:induction false} DistinctSize(keys: seq<string>)
    requires Distinct(keys)
    ensures |(set k | k in keys)| == |keys|
  {
    if keys == [] {
      assert (set k | k in keys) == {};
    } else {
      var (init, last) := (keys[..|keys| - 1], keys[|keys| - 1]);
      DistinctSize(init);
      assert last !in init;
      assert (set k | k in keys) == (set k | k in init) + {last};
    }
  }

  /** As many keys as there are names, and all names among them: no other key. */
  lemma ExactKeys(fields: map<string, JsValue>, keys: seq<string>)
    requires HasExactKeys(fields, keys) && Distinct(keys)
    ensures forall k :: k in fields <==> k in keys
  {
    var names := set k | k in keys;
    DistinctSize(keys);
    assert |fields.Keys| == |fields|;
    SameSize(names, fields.Keys);
    assert forall k :: k in fields.Keys <==> k in names;
  }

  /** Records with the same keys and fields are the same. */
  lemma SameRecords(v: JsValue, w: JsValue, keys: seq<string>)
    requires IsPlainRecord(v) && IsPlainRecord(w) && Distinct(keys)
    requires HasExactKeys(v.fields, keys) && HasExactKeys(w.fields, keys)
    requires forall i :: 0 <= i < |keys| ==> Field(v, keys[i]) == Field(w, keys[i])
    ensures v == w
  {
    ExactKeys(v.fields, keys);
    ExactKeys(w.fields, keys);
    forall k | k in v.fields ensures v.fields[k] == w.fields[k] {
      var i :| 0 <= i < |keys| && keys[i] == k;
      assert Field(v, keys[i]) == Field(w, keys[i]);
    }
    assert v.fields == w.fields;
  }

  // ---------------------------------------------------------------- commands

  /** The parser accepts a value exactly if it is the encoding of a command with readable identifiers. */
  lemma CommandStrict(v: JsValue, c: Command)
    ensures ParseCommand(v) == Some(c) <==>
            && Readable(c.nonce, 128) && Readable(c.requestId, 128)
            && v == Obj(true, map["version" := Num(Finite(1.0)), "type" := Str(Lit(CommandTypeText(c.kind))),
                                  "nonce" := Str(c.nonce), "requestId" := Str(c.requestId)])
  {
    ParseCommandExact(v, c);
    ReadableExactly(c.nonce, 128);
    ReadableExactly(c.requestId, 128);
  }

  // ---------------------------------------------------------------- selections

  datatype Box = Box(x: real, y: real, width: real, height: real)

  datatype Picked = Picked(
    tag: JsString,
    role: Option<JsString>,
    name: Option<JsString>,
    text: Option<JsString>,
    attributes: map<string, JsString>,
    locator: JsString,
    bounds: Box)

  function EncodeBox(b: Box): JsValue {
    Obj(true, map["x" := Num(Finite(b.x)), "y" := Num(Finite(b.y)),
                  "width" := Num(Finite(b.width)), "height" := Num(Finite(b.height))])
  }

  function EncodeAttributes(attributes: map<string, JsString>): JsValue {
    Obj(true, map name | name in attributes :: Str(attributes[name]))
  }

  function EncodePicked(p: Picked): JsValue {
    SelectionRecord(p.tag, OrNull(p.role), OrNull(p.name), OrNull(p.text),
                    EncodeAttributes(p.attributes), p.locator, EncodeBox(p.bounds))
  }

  predicate BoxOk(b: Box) {
    && -1000000.0 <= b.x <= 1000000.0 && -1000000.0 <= b.y <= 1000000.0
    && 0.0 <= b.width <= 1000000.0 && 0.0 <= b.height <= 1000000.0
  }

  const PUBLIC_NAMES: set<string> :=
    {"id", "class", "name", "role"} + {"aria-label", "data-testid", "data-test", "data-cy"}

  predicate AttributesOk(attributes: map<string, JsString>) {
    forall name :: name in attributes ==> name in PUBLIC_NAMES && Readable(attributes[name], 128)
  }

  predicate IsAlphanumeric(u: Unit) {
    0x61 <= u <= 0x7A || 0x41 <= u <= 0x5A || 0x30 <= u <= 0x39
  }

  /** A letter, then letters, digits and hyphens; 64 characters at most. */
  predicate TagOk(tag: JsString) {
    && 0 < |tag| <= 64
    && (0x61 <= tag[0] <= 0x7A || 0x41 <= tag[0] <= 0x5A)
    && forall u :: u in tag ==> IsAlphanumeric(u) || u == 0x2D
  }

  predicate PickedOk(p: Picked) {
    && TagOk(p.tag)
    && ReadableOrNone(p.role, 128) && ReadableOrNone(p.name, 256) && ReadableOrNone(p.text, 512)
    && AttributesOk(p.attributes)
    && Readable(p.locator, 512)
    && BoxOk(p.bounds)
  }

  lemma TagExactly(tag: JsString)
    ensures IsTag(tag) <==> TagOk(tag)
  {
    if TagOk(tag) {
      forall i | 1 <= i < |tag| ensures IsLetter(tag[i]) || IsDigit(tag[i]) || tag[i] == 0x2D { assert tag[i] in tag; }
    }
  }

  lemma BoxExactly(v: JsValue) returns (b: Box)
    ensures IsBounds(v) <==> v == EncodeBox(b) && BoxOk(b)
  {
    b := Box(0.0, 0.0, 0.0, 0.0);
    if IsBounds(v) {
      FourKeys(v.fields, "x", "y", "width", "height");
      b := Box(v.fields["x"].n.value, v.fields["y"].n.value, v.fields["width"].n.value, v.fields["height"].n.value);
    } else {
      BoxIsBounds(b);
    }
  }

  lemma BoxIsBounds(b: Box)
    requires BoxOk(b)
    ensures IsBounds(EncodeBox(b))
  {
    var fields := EncodeBox(b).fields;
    assert fields.Keys == {"x", "y", "width", "height"};
    assert |fields| == |fields.Keys| == 4;
  }

  lemma SubsetSize(a: set<string>, b: set<string>)
    requires a <= b
    ensures |a| <= |b|
  {
    assert b == a + (b - a);
  }

  lemma NamesAreAllowed(name: string)
    ensures name in PUBLIC_NAMES <==> name in ALLOWED_ATTRIBUTES
  {
  }

  lemma AttributesAreFew(attributes: map<string, JsString>)
    requires AttributesOk(attributes)
    ensures IsAttributes(EncodeAttributes(attributes))
  {
    var fields := EncodeAttributes(attributes).fields;
    SubsetSize(fields.Keys, PUBLIC_NAMES);
    assert |PUBLIC_NAMES| <= 8;
    assert |fields| == |fields.Keys|;
    forall name | name in fields ensures name in ALLOWED_ATTRIBUTES && IsBoundedString(fields[name], 128) {
      NamesAreAllowed(name);
      ReadableExactly(attributes[name], 128);
    }
  }

  lemma AttributesExactly(v: JsValue) returns (attributes: map<string, JsString>)
    ensures IsAttributes(v) <==> v == EncodeAttributes(attributes) && AttributesOk(attributes)
  {
    attributes := map[];
    if IsAttributes(v) {
      attributes := map name | name in v.fields :: v.fields[name].s;
      assert EncodeAttributes(attributes).fields == v.fields;
      forall name | name in attributes ensures name in PUBLIC_NAMES && Readable(attributes[name], 128) {
        NamesAreAllowed(name);
        ReadableExactly(attributes[name], 128);
      }
    } else {
      AttributesAreFew(attributes);
    }
  }

  lemma SelectionKeysDiffer()
    ensures Distinct(SELECTION_KEYS)
  {
  }

  lemma RecordOf(v: JsValue)
    requires IsPlainRecord(v) && HasExactKeys(v.fields, SELECTION_KEYS)
    requires Field(v, "version") == VERSION && Field(v, "tag").Str? && Field(v, "locator").Str?
    ensures v == SelectionRecord(Field(v, "tag").s, Field(v, "role"), Field(v, "accessibleName"), Field(v, "text"),
                                 Field(v, "attributes"), Field(v, "locator").s, Field(v, "bounds"))
  {
    var tag, role, name := Field(v, "tag").s, Field(v, "role"), Field(v, "accessibleName");
    var text, attributes := Field(v, "text"), Field(v, "attributes");
    var locator, bounds := Field(v, "locator").s, Field(v, "bounds");
    SelectionKeysDiffer();
    RecordKeys(tag, role, name, text, attributes, locator, bounds);
    RecordFields(tag, role, name, text, attributes, locator, bounds);
    SameRecords(v, SelectionRecord(tag, role, name, text, attributes, locator, bounds), SELECTION_KEYS);
  }

  lemma PickedIsSelection(p: Picked)
    requires PickedOk(p)
    ensures IsSelection(EncodePicked(p))
  {
    RecordAccepted(p.tag, OrNull(p.role), OrNull(p.name), OrNull(p.text),
                   EncodeAttributes(p.attributes), p.locator, EncodeBox(p.bounds));
    TagExactly(p.tag);
    if p.role.Some? { ReadableExactly(p.role.value, 128); }
    if p.name.Some? { ReadableExactly(p.name.value, 256); }
    if p.text.Some? { ReadableExactly(p.text.value, 512); }
    AttributesAreFew(p.attributes);
    ReadableExactly(p.locator, 512);
    BoxIsBounds(p.bounds);
  }

  lemma SelectionIsPicked(v: JsValue) returns (p: Picked)
    requires IsSelection(v)
    ensures v == EncodePicked(p) && PickedOk(p)
  {
    RecordOf(v);
    TagExactly(Field(v, "tag").s);
    var role := NullOrExactly(Field(v, "role"), 128);
    var name := NullOrExactly(Field(v, "accessibleName"), 256);
    var text := NullOrExactly(Field(v, "text"), 512);
    var attributes := AttributesExactly(Field(v, "attributes"));
    ReadableExactly(Field(v, "locator").s, 512);
    var bounds := BoxExactly(Field(v, "bounds"));
    p := Picked(Field(v, "tag").s, role, name, text, attributes, Field(v, "locator").s, bounds);
  }

  ghost predicate EncodesPicked(v: JsValue) {
    exists p :: v == EncodePicked(p) && PickedOk(p)
  }

  /** The validator accepts exactly the encodings of selections within bounds. */
  lemma SelectionStrict(v: JsValue)
    ensures IsSelection(v) <==> EncodesPicked(v)
  {
    if IsSelection(v) {
      var p := SelectionIsPicked(v);
      assert v == EncodePicked(p) && PickedOk(p);
    }
    if EncodesPicked(v) {
      var p :| v == EncodePicked(p) && PickedOk(p);
      PickedIsSelection(p);
    }
  }

  // ---------------------------------------------------------------- events

  ghost predicate EventStrict(e: Event) {
    && Readable(e.nonce, 128) && Readable(e.requestId, 128)
    && match e.body
       case Ready(capabilities) => |capabilities| <= 2
       case Selection(selection) => EncodesPicked(selection)
       case Navigated(url) => Readable(url, 2048)
       case ConsoleEntry(_, message) => Readable(message, 512)
       case Failed(_, message) => Readable(message, 512)
  }

  lemma EventStrictExactly(e: Event)
    ensures EventOk(e) <==> EventStrict(e)
  {
    ReadableExactly(e.nonce, 128);
    ReadableExactly(e.requestId, 128);
    match e.body
    case Ready(_) =>
    case Selection(selection) => SelectionStrict(selection);
    case Navigated(url) => ReadableExactly(url, 2048);
    case ConsoleEntry(_, message) => ReadableExactly(message, 512);
    case Failed(_, message) => ReadableExactly(message, 512);
  }

  function BareReady(nonce: JsString, requestId: JsString): JsValue {
    Obj(true, map["version" := Num(Finite(1.0)), "type" := Str(Lit("dam-hopper:bridge-ready")),
                  "nonce" := Str(nonce), "requestId" := Str(requestId)])
  }

  /** A ready event of a bridge that knows of no capabilities. */
  ghost predicate EncodesBareReady(v: JsValue) {
    exists nonce, requestId :: v == BareReady(nonce, requestId) && Readable(nonce, 128) && Readable(requestId, 128)
  }

  ghost predicate EncodesEvent(v: JsValue) {
    exists e :: v == EncodeEvent(e) && EventStrict(e)
  }

  lemma BareIsAccepted(nonce: JsString, requestId: JsString)
    requires Readable(nonce, 128) && Readable(requestId, 128)
    ensures AcceptsEvent(BareReady(nonce, requestId))
  {
    ReadableExactly(nonce, 128);
    ReadableExactly(requestId, 128);
    var fields := BareReady(nonce, requestId).fields;
    assert fields.Keys == {"version", "type", "nonce", "requestId"};
    assert |fields| == |fields.Keys| == 4;
  }

  /** The parts that all accepted events have. */
  predicate HasEnvelope(v: JsValue, nonce: JsString, requestId: JsString) {
    && IsPlainRecord(v) && Field(v, "version") == VERSION
    && Field(v, "nonce") == Str(nonce) && Field(v, "requestId") == Str(requestId)
  }

  /** A value with the envelope of an event and its other fields is its encoding. */
  lemma EncodesIt(v: JsValue, e: Event, others: seq<string>)
    requires HasEnvelope(v, e.nonce, e.requestId) && Field(v, "type") == Str(Lit(EventTypeText(e.body)))
    requires Distinct(ENVELOPE_KEYS + others)
    requires HasExactKeys(v.fields, ENVELOPE_KEYS + others)
    requires HasExactKeys(EncodeEvent(e).fields, ENVELOPE_KEYS + others)
    requires forall i :: 0 <= i < |others| ==> Field(v, others[i]) == Field(EncodeEvent(e), others[i])
    ensures v == EncodeEvent(e)
  {
    var keys := ENVELOPE_KEYS + others;
    EnvelopeFields(e);
    forall i | 0 <= i < |keys| ensures Field(v, keys[i]) == Field(EncodeEvent(e), keys[i]) {
      if i >= 4 { assert keys[i] == others[i - 4]; }
    }
    SameRecords(v, EncodeEvent(e), keys);
  }

  function ReadCapabilities(items: seq<JsValue>): seq<Capability> {
    seq(|items|, i requires 0 <= i < |items| => if items[i] == Str(Lit("navigation")) then Navigation else Console)
  }

  lemma CapabilitiesAreEncoded(v: JsValue)
    requires IsCapabilities(v)
    ensures v == EncodeCapabilities(ReadCapabilities(v.items))
  {
    assert EncodeCapabilities(ReadCapabilities(v.items)).items == v.items;
  }

  lemma ReadyIsEncoded(v: JsValue, nonce: JsString, requestId: JsString) returns (cs: seq<Capability>)
    requires HasEnvelope(v, nonce, requestId) && Field(v, "type") == Str(Lit("dam-hopper:bridge-ready"))
    requires AcceptsReady(v)
    ensures v == BareReady(nonce, requestId) || v == EncodeEvent(Event(nonce, requestId, Ready(cs)))
  {
    cs := [];
    if HasExactKeys(v.fields, ENVELOPE_KEYS) {
      FourKeys(v.fields, "version", "type", "nonce", "requestId");
    } else {
      cs := ReadCapabilities(Field(v, "capabilities").items);
      CapabilitiesAreEncoded(Field(v, "capabilities"));
      var e := Event(nonce, requestId, Ready(cs));
      EnvelopeIsFour(e);
      OneMoreKey(Envelope(e), "capabilities", EncodeCapabilities(cs));
      EncodesIt(v, e, ["capabilities"]);
    }
  }

  lemma SelectionIsEncoded(v: JsValue, nonce: JsString, requestId: JsString)
    requires HasEnvelope(v, nonce, requestId) && Field(v, "type") == Str(Lit("dam-hopper:selection"))
    requires AcceptsSelection(v)
    ensures v == EncodeEvent(Event(nonce, requestId, Selection(Field(v, "selection"))))
  {
    var e := Event(nonce, requestId, Selection(Field(v, "selection")));
    SelectionExactly(e, Field(v, "selection"));
    EncodesIt(v, e, ["selection"]);
  }

  lemma NavigationIsEncoded(v: JsValue, nonce: JsString, requestId: JsString)
    requires HasEnvelope(v, nonce, requestId) && Field(v, "type") == Str(Lit("dam-hopper:navigation"))
    requires AcceptsNavigation(v)
    ensures v == EncodeEvent(Event(nonce, requestId, Navigated(Field(v, "url").s)))
  {
    var e := Event(nonce, requestId, Navigated(Field(v, "url").s));
    NavigationExactly(e, Field(v, "url").s);
    EncodesIt(v, e, ["url"]);
  }

  lemma LevelIsEncoded(v: JsValue) returns (level: ConsoleLevel)
    requires IsConsoleLevel(v)
    ensures v == Str(Lit(LevelText(level)))
  {
    level :=
      if v == Str(Lit("debug")) then Debug
      else if v == Str(Lit("log")) then Log
      else if v == Str(Lit("info")) then Info
      else if v == Str(Lit("warn")) then Warn
      else ErrorLevel;
  }

  lemma CodeIsEncoded(v: JsValue) returns (code: ErrorCode)
    requires IsErrorCode(v)
    ensures v == Str(Lit(ErrorCodeText(code)))
  {
    code :=
      if v == Str(Lit("invalid_message")) then InvalidMessage
      else if v == Str(Lit("invalid_nonce")) then InvalidNonce
      else if v == Str(Lit("picker_unavailable")) then PickerUnavailable
      else PickerFailed;
  }

  lemma ConsoleIsEncoded(v: JsValue, nonce: JsString, requestId: JsString) returns (level: ConsoleLevel)
    requires HasEnvelope(v, nonce, requestId) && Field(v, "type") == Str(Lit("dam-hopper:console"))
    requires AcceptsConsole(v)
    ensures v == EncodeEvent(Event(nonce, requestId, ConsoleEntry(level, Field(v, "message").s)))
  {
    level := LevelIsEncoded(Field(v, "level"));
    var e := Event(nonce, requestId, ConsoleEntry(level, Field(v, "message").s));
    ConsoleExactly(e, level, Field(v, "message").s);
    EncodesIt(v, e, ["level", "message"]);
  }

  lemma ErrorIsEncoded(v: JsValue, nonce: JsString, requestId: JsString) returns (code: ErrorCode)
    requires HasEnvelope(v, nonce, requestId) && Field(v, "type") == Str(Lit("dam-hopper:error"))
    requires AcceptsError(v)
    ensures v == EncodeEvent(Event(nonce, requestId, Failed(code, Field(v, "message").s)))
  {
    code := CodeIsEncoded(Field(v, "code"));
    var e := Event(nonce, requestId, Failed(code, Field(v, "message").s));
    ErrorExactly(e, code, Field(v, "message").s);
    EncodesIt(v, e, ["code", "message"]);
  }

  lemma AcceptedIsEncoded(v: JsValue)
    requires AcceptsEvent(v)
    ensures EncodesBareReady(v) || exists e :: v == EncodeEvent(e)
  {
    var (nonce, requestId, kind) := (Field(v, "nonce").s, Field(v, "requestId").s, Field(v, "type"));
    ReadableExactly(nonce, 128);
    ReadableExactly(requestId, 128);
    if kind == Str(Lit("dam-hopper:bridge-ready")) && AcceptsReady(v) {
      var cs := ReadyIsEncoded(v, nonce, requestId);
    } else if kind == Str(Lit("dam-hopper:selection")) && AcceptsSelection(v) {
      SelectionIsEncoded(v, nonce, requestId);
    } else if kind == Str(Lit("dam-hopper:navigation")) && AcceptsNavigation(v) {
      NavigationIsEncoded(v, nonce, requestId);
    } else if kind == Str(Lit("dam-hopper:console")) && AcceptsConsole(v) {
      var level := ConsoleIsEncoded(v, nonce, requestId);
    } else {
      var code := ErrorIsEncoded(v, nonce, requestId);
    }
  }

  /**
   The parent's parser accepts exactly the encodings of events within bounds, and of ready events
   without capabilities.
   */
  lemma EventsStrict(v: JsValue)
    ensures AcceptsEvent(v) <==> EncodesBareReady(v) || EncodesEvent(v)
  {
    if AcceptsEvent(v) {
      AcceptedIsEncoded(v);
      if e :| v == EncodeEvent(e) {
        AcceptsExactly(e);
        EventStrictExactly(e);
      }
    }
    if EncodesEvent(v) {
      var e :| v == EncodeEvent(e) && EventStrict(e);
      EventStrictExactly(e);
      AcceptsExactly(e);
    }
    if EncodesBareReady(v) {
      var nonce, requestId :| v == BareReady(nonce, requestId) && Readable(nonce, 128) && Readable(requestId, 128);
      BareIsAccepted(nonce, requestId);
    }
  }

  // ---------------------------------------------------------------- no two events look alike

  lemma LevelsDiffer(a: ConsoleLevel, b: ConsoleLevel)
    ensures Lit(LevelText(a)) == Lit(LevelText(b)) ==> a == b
  {
    assert Lit("debug")[0] == 0x64 && Lit("error")[0] == 0x65 && Lit("info")[0] == 0x69 && Lit("warn")[0] == 0x77;
  }

  lemma CodesDiffer(a: ErrorCode, b: ErrorCode)
    ensures Lit(ErrorCodeText(a)) == Lit(ErrorCodeText(b)) ==> a == b
  {
    assert Lit("invalid_nonce")[0] == 0x69 && Lit("picker_failed")[0] == 0x70;
  }

  lemma CapabilitiesDiffer(a: seq<Capability>, b: seq<Capability>)
    requires EncodeCapabilities(a) == EncodeCapabilities(b)
    ensures a == b
  {
    var (x, y) := (EncodeCapabilities(a).items, EncodeCapabilities(b).items);
    assert |a| == |x| == |y| == |b|;
    assert |Lit("navigation")| != |Lit("console")|;
    forall i | 0 <= i < |a| ensures a[i] == b[i] { assert x[i] == y[i]; }
  }

  lemma BodiesDiffer(a: EventBody, b: EventBody)
    requires EventTypeText(a) == EventTypeText(b)
    ensures a.Ready? == b.Ready? && a.Selection? == b.Selection? && a.Navigated? == b.Navigated?
    ensures a.ConsoleEntry? == b.ConsoleEntry? && a.Failed? == b.Failed?
  {
    assert "dam-hopper:selection"[11] == 's' && "dam-hopper:navigation"[11] == 'n';
  }

  /** The encodings of two events differ: nothing of an event is lost. */
  lemma EncodingIsInjective(a: Event, b: Event)
    requires EncodeEvent(a) == EncodeEvent(b)
    ensures a == b
  {
    EnvelopeFields(a);
    EnvelopeFields(b);
    EventTypesDiffer(a.body, b.body);
    BodiesDiffer(a.body, b.body);
    var (v, w) := (EncodeEvent(a).fields, EncodeEvent(b).fields);
    match a.body
    case Ready(cs) =>
      assert v["capabilities"] == w["capabilities"];
      CapabilitiesDiffer(cs, b.body.capabilities);
    case Selection(_) => assert v["selection"] == w["selection"];
    case Navigated(_) => assert v["url"] == w["url"];
    case ConsoleEntry(level, _) =>
      assert v["level"] == w["level"] && v["message"] == w["message"];
      LevelsDiffer(level, b.body.level);
    case Failed(code, _) =>
      assert v["code"] == w["code"] && v["message"] == w["message"];
      CodesDiffer(code, b.body.code);
  }
}
