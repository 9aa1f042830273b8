/** The bridge protocol: its commands and events, and the strict validators that accept them. */
module Protocol {
  import opened Prelude
  import opened JsValues

  const VERSION := Num(Finite(1.0))
  const MAX_NONCE_LENGTH := 128
  const MAX_REQUEST_ID_LENGTH := 128
  const MAX_TEXT_LENGTH := 512
  const MAX_URL_LENGTH := 2048
  const MAX_ACCESSIBLE_NAME_LENGTH := 256
  const MAX_ATTRIBUTE_COUNT := 12
  const MAX_ATTRIBUTE_VALUE_LENGTH := 128
  const MAX_LOCATOR_LENGTH := 512
  const MAX_LOCATOR_DEPTH := 6
  const MAX_BOUND := 1000000.0
  const ALLOWED_ATTRIBUTES: seq<string> :=
    ["id", "class", "name", "role", "aria-label", "data-testid", "data-test", "data-cy"]

  // ---------------------------------------------------------------- validators

  predicate BoundedString(s: JsString, max: nat) {
    0 < |s| <= max && NoControl(s)
  }

  predicate IsBoundedString(v: JsValue, max: nat) {
    v.Str? && BoundedString(v.s, max)
  }

  predicate IsPlainRecord(v: JsValue) {
    v.Obj? && v.plain
  }

  predicate HasExactKeys(fields: map<string, JsValue>, keys: seq<string>) {
    |fields| == |keys| && forall i :: 0 <= i < |keys| ==> keys[i] in fields
  }

  predicate IsCoordinate(v: JsValue) {
    v.Num? && v.n.Finite? && -MAX_BOUND <= v.n.value <= MAX_BOUND
  }

  predicate IsSize(v: JsValue) {
    v.Num? && v.n.Finite? && 0.0 <= v.n.value <= MAX_BOUND
  }

  predicate IsAttributes(v: JsValue) {
    && IsPlainRecord(v)
    && |v.fields| <= MAX_ATTRIBUTE_COUNT
    && forall name :: name in v.fields ==>
         name in ALLOWED_ATTRIBUTES && IsBoundedString(v.fields[name], MAX_ATTRIBUTE_VALUE_LENGTH)
  }

  predicate IsLetter(u: Unit) {
    0x41 <= u <= 0x5A || 0x61 <= u <= 0x7A
  }

  predicate IsDigit(u: Unit) {
    0x30 <= u <= 0x39
  }

  /** The pattern `/^[a-z][a-z0-9-]{0,63}$/i`. */
  predicate IsTag(s: JsString) {
    && 1 <= |s| <= 64
    && IsLetter(s[0])
    && forall i :: 1 <= i < |s| ==> IsLetter(s[i]) || IsDigit(s[i]) || s[i] == 0x2D
  }

  predicate NullOr(v: JsValue, max: nat) {
    v.Null? || IsBoundedString(v, max)
  }

  const SELECTION_KEYS: seq<string> :=
    ["version", "tag", "role", "accessibleName", "text", "attributes", "locator", "bounds"]

  predicate IsBounds(v: JsValue) {
    && IsPlainRecord(v)
    && HasExactKeys(v.fields, ["x", "y", "width", "height"])
    && "x" in v.fields && IsCoordinate(v.fields["x"])
    && "y" in v.fields && IsCoordinate(v.fields["y"])
    && "width" in v.fields && IsSize(v.fields["width"])
    && "height" in v.fields && IsSize(v.fields["height"])
  }

  function Field(v: JsValue, key: string): JsValue
    requires v.Obj?
  {
    if key in v.fields then v.fields[key] else Undefined
  }

  /** `isBrowserSelectionV1`. */
  predicate IsSelection(v: JsValue) {
    && IsPlainRecord(v)
    && Field(v, "version") == VERSION
    && HasExactKeys(v.fields, SELECTION_KEYS)
    && Field(v, "tag").Str? && IsTag(Field(v, "tag").s)
    && NullOr(Field(v, "role"), MAX_ATTRIBUTE_VALUE_LENGTH)
    && NullOr(Field(v, "accessibleName"), MAX_ACCESSIBLE_NAME_LENGTH)
    && NullOr(Field(v, "text"), MAX_TEXT_LENGTH)
    && IsAttributes(Field(v, "attributes"))
    && IsBoundedString(Field(v, "locator"), MAX_LOCATOR_LENGTH)
    && IsBounds(Field(v, "bounds"))
  }

  // ---------------------------------------------------------------- commands

  datatype CommandType = Connect | StartPicker | StopPicker | GoBack | GoForward | Reload

  datatype Command = Command(kind: CommandType, nonce: JsString, requestId: JsString)

  function CommandTypeText(kind: CommandType): string {
    match kind
    case Connect => "dam-hopper:connect"
    case StartPicker => "dam-hopper:start-picker"
    case StopPicker => "dam-hopper:stop-picker"
    case GoBack => "dam-hopper:go-back"
    case GoForward => "dam-hopper:go-forward"
    case Reload => "dam-hopper:reload"
  }

  function ReadCommandType(v: JsValue): Option<CommandType> {
    if v == Str(Lit("dam-hopper:connect")) then Some(Connect)
    else if v == Str(Lit("dam-hopper:start-picker")) then Some(StartPicker)
    else if v == Str(Lit("dam-hopper:stop-picker")) then Some(StopPicker)
    else if v == Str(Lit("dam-hopper:go-back")) then Some(GoBack)
    else if v == Str(Lit("dam-hopper:go-forward")) then Some(GoForward)
    else if v == Str(Lit("dam-hopper:reload")) then Some(Reload)
    else None
  }

  /** What the parent posts for a command. */
  function EncodeCommand(c: Command): (v: JsValue)
    ensures v.Obj?
  {
    Obj(true, map["version" := VERSION, "type" := Str(Lit(CommandTypeText(c.kind))),
                  "nonce" := Str(c.nonce), "requestId" := Str(c.requestId)])
  }

  predicate CommandOk(c: Command) {
    BoundedString(c.nonce, MAX_NONCE_LENGTH) && BoundedString(c.requestId, MAX_REQUEST_ID_LENGTH)
  }

  /** `parseBrowserBridgeCommand`. */
  function ParseCommand(v: JsValue): Option<Command> {
    if !IsPlainRecord(v) || Field(v, "version") != VERSION then None
    else if !HasExactKeys(v.fields, ["version", "type", "nonce", "requestId"]) then None
    else if !IsBoundedString(Field(v, "nonce"), MAX_NONCE_LENGTH) ||
            !IsBoundedString(Field(v, "requestId"), MAX_REQUEST_ID_LENGTH) then None
    else
      match ReadCommandType(Field(v, "type"))
      case None => None
      case Some(kind) => Some(Command(kind, Field(v, "nonce").s, Field(v, "requestId").s))
  }

  lemma SameSize<T>(a: set<T>, b: set<T>)
    requires a <= b && |a| == |b|
    ensures a == b
  {
    assert b == a + (b - a);
  }

  /** Four keys that are all there leave room for no other. */
  lemma FourKeys(fields: map<string, JsValue>, a: string, b: string, c: string, d: string)
    requires |fields| == 4 && a in fields && b in fields && c in fields && d in fields
    requires a != b && a != c && a != d && b != c && b != d && c != d
    ensures fields == map[a := fields[a], b := fields[b], c := fields[c], d := fields[d]]
  {
    assert |fields.Keys| == |fields| && |{a, b, c, d}| == 4;
    SameSize({a, b, c, d}, fields.Keys);
  }

  lemma CommandTypesDiffer()
    ensures forall k: CommandType :: ReadCommandType(Str(Lit(CommandTypeText(k)))) == Some(k)
  {
    forall k: CommandType ensures ReadCommandType(Str(Lit(CommandTypeText(k)))) == Some(k) {
      assert Lit("dam-hopper:connect")[11] == 0x63;
      assert Lit("dam-hopper:start-picker")[13] == 0x61;
      assert Lit("dam-hopper:stop-picker")[13] == 0x6F;
      assert Lit("dam-hopper:go-back")[11] == 0x67;
      assert Lit("dam-hopper:go-forward")[11] == 0x67;
      assert Lit("dam-hopper:reload")[11] == 0x72;
    }
  }

  lemma ParsedIsEncoded(v: JsValue, c: Command)
    requires ParseCommand(v) == Some(c)
    ensures v == EncodeCommand(c) && CommandOk(c)
  {
    CommandTypesDiffer();
    FourKeys(v.fields, "version", "type", "nonce", "requestId");
  }

  lemma EncodedKeys(c: Command)
    ensures HasExactKeys(EncodeCommand(c).fields, ["version", "type", "nonce", "requestId"])
  {
    var fields := EncodeCommand(c).fields;
    assert fields.Keys == {"version", "type", "nonce", "requestId"};
    assert |fields| == |fields.Keys| == 4;
  }

  lemma EncodedIsParsed(c: Command)
    requires CommandOk(c)
    ensures ParseCommand(EncodeCommand(c)) == Some(c)
  {
    CommandTypesDiffer();
    EncodedKeys(c);
  }

  /** The parser accepts a value exactly if it is the encoding of a well-formed command, which it returns. */
  lemma ParseCommandExact(v: JsValue, c: Command)
    ensures ParseCommand(v) == Some(c) <==> v == EncodeCommand(c) && CommandOk(c)
  {
    if ParseCommand(v) == Some(c) { ParsedIsEncoded(v, c); }
    if v == EncodeCommand(c) && CommandOk(c) { EncodedIsParsed(c); }
  }

  // ---------------------------------------------------------------- events

  datatype ErrorCode = InvalidMessage | InvalidNonce | PickerUnavailable | PickerFailed
  datatype ConsoleLevel = Debug | Log | Info | Warn | ErrorLevel
  datatype Capability = Navigation | Console

  datatype EventBody =
    | Ready(capabilities: seq<Capability>)
    | Selection(selection: JsValue)
    | Navigated(url: JsString)
    | ConsoleEntry(level: ConsoleLevel, message: JsString)
    | Failed(code: ErrorCode, message: JsString)

  datatype Event = Event(nonce: JsString, requestId: JsString, body: EventBody)

  function ErrorCodeText(c: ErrorCode): string {
    match c
    case InvalidMessage => "invalid_message"
    case InvalidNonce => "invalid_nonce"
    case PickerUnavailable => "picker_unavailable"
    case PickerFailed => "picker_failed"
  }

  function LevelText(l: ConsoleLevel): string {
    match l
    case Debug => "debug"
    case Log => "log"
    case Info => "info"
    case Warn => "warn"
    case ErrorLevel => "error"
  }

  function CapabilityText(c: Capability): string {
    match c case Navigation => "navigation" case Console => "console"
  }

  function EncodeCapability(c: Capability): JsValue {
    Str(Lit(CapabilityText(c)))
  }

  function EventTypeText(b: EventBody): string {
    match b
    case Ready(_) => "dam-hopper:bridge-ready"
    case Selection(_) => "dam-hopper:selection"
    case Navigated(_) => "dam-hopper:navigation"
    case ConsoleEntry(_, _) => "dam-hopper:console"
    case Failed(_, _) => "dam-hopper:error"
  }

  function Envelope(e: Event): map<string, JsValue> {
    map["version" := VERSION, "type" := Str(Lit(EventTypeText(e.body))),
        "nonce" := Str(e.nonce), "requestId" := Str(e.requestId)]
  }

  function EncodeCapabilities(cs: seq<Capability>): JsValue {
    Arr(seq(|cs|, i requires 0 <= i < |cs| => EncodeCapability(cs[i])))
  }

  /** What the bridge posts for an event. */
  function EncodeEvent(e: Event): (v: JsValue)
    ensures v.Obj?
  {
    Obj(true,
        match e.body
        case Ready(cs) => Envelope(e)["capabilities" := EncodeCapabilities(cs)]
        case Selection(selection) => Envelope(e)["selection" := selection]
        case Navigated(url) => Envelope(e)["url" := Str(url)]
        case ConsoleEntry(level, message) =>
          Envelope(e)["level" := Str(Lit(LevelText(level)))]["message" := Str(message)]
        case Failed(code, message) =>
          Envelope(e)["code" := Str(Lit(ErrorCodeText(code)))]["message" := Str(message)])
  }

  predicate IsErrorCode(v: JsValue) {
    || v == Str(Lit("invalid_message")) || v == Str(Lit("invalid_nonce"))
    || v == Str(Lit("picker_unavailable")) || v == Str(Lit("picker_failed"))
  }

  predicate IsConsoleLevel(v: JsValue) {
    || v == Str(Lit("debug")) || v == Str(Lit("log")) || v == Str(Lit("info"))
    || v == Str(Lit("warn")) || v == Str(Lit("error"))
  }

  predicate IsCapabilities(v: JsValue) {
    && v.Arr? && |v.items| <= 2
    && forall i :: 0 <= i < |v.items| ==> v.items[i] == Str(Lit("navigation")) || v.items[i] == Str(Lit("console"))
  }

  const ENVELOPE_KEYS: seq<string> := ["version", "type", "nonce", "requestId"]

  predicate AcceptsReady(v: JsValue)
    requires v.Obj?
  {
    || HasExactKeys(v.fields, ENVELOPE_KEYS)
    || (HasExactKeys(v.fields, ENVELOPE_KEYS + ["capabilities"]) && IsCapabilities(Field(v, "capabilities")))
  }

  predicate AcceptsSelection(v: JsValue)
    requires v.Obj?
  {
    HasExactKeys(v.fields, ENVELOPE_KEYS + ["selection"]) && IsSelection(Field(v, "selection"))
  }

  predicate AcceptsNavigation(v: JsValue)
    requires v.Obj?
  {
    HasExactKeys(v.fields, ENVELOPE_KEYS + ["url"]) && IsBoundedString(Field(v, "url"), MAX_URL_LENGTH)
  }

  predicate AcceptsConsole(v: JsValue)
    requires v.Obj?
  {
    && HasExactKeys(v.fields, ENVELOPE_KEYS + ["level", "message"])
    && IsConsoleLevel(Field(v, "level"))
    && IsBoundedString(Field(v, "message"), MAX_TEXT_LENGTH)
  }

  predicate AcceptsError(v: JsValue)
    requires v.Obj?
  {
    && HasExactKeys(v.fields, ENVELOPE_KEYS + ["code", "message"])
    && IsErrorCode(Field(v, "code"))
    && IsBoundedString(Field(v, "message"), MAX_TEXT_LENGTH)
  }

  /** `parseBrowserBridgeEvent` returns the value it is given, or rejects it. */
  predicate AcceptsEvent(v: JsValue) {
    && IsPlainRecord(v)
    && Field(v, "version") == VERSION
    && IsBoundedString(Field(v, "nonce"), MAX_NONCE_LENGTH)
    && IsBoundedString(Field(v, "requestId"), MAX_REQUEST_ID_LENGTH)
    && var kind := Field(v, "type");
    || (kind == Str(Lit("dam-hopper:bridge-ready")) && AcceptsReady(v))
    || (kind == Str(Lit("dam-hopper:selection")) && AcceptsSelection(v))
    || (kind == Str(Lit("dam-hopper:navigation")) && AcceptsNavigation(v))
    || (kind == Str(Lit("dam-hopper:console")) && AcceptsConsole(v))
    || (kind == Str(Lit("dam-hopper:error")) && AcceptsError(v))
  }

  /** What an event must satisfy to be accepted. */
  predicate BodyOk(b: EventBody) {
    match b
    case Ready(cs) => |cs| <= 2
    case Selection(selection) => IsSelection(selection)
    case Navigated(url) => BoundedString(url, MAX_URL_LENGTH)
    case ConsoleEntry(_, message) => BoundedString(message, MAX_TEXT_LENGTH)
    case Failed(_, message) => BoundedString(message, MAX_TEXT_LENGTH)
  }

  predicate EventOk(e: Event) {
    BoundedString(e.nonce, MAX_NONCE_LENGTH) && BoundedString(e.requestId, MAX_REQUEST_ID_LENGTH) && BodyOk(e.body)
  }

  lemma EventTypesDiffer(a: EventBody, b: EventBody)
    ensures Lit(EventTypeText(a)) == Lit(EventTypeText(b)) ==> EventTypeText(a) == EventTypeText(b)
  {
    assert Lit("dam-hopper:selection")[11] == 0x73;
    assert Lit("dam-hopper:navigation")[11] == 0x6E;
  }

  lemma EnvelopeIsFour(e: Event)
    ensures Envelope(e).Keys == {"version", "type", "nonce", "requestId"} && |Envelope(e)| == 4
  {
    assert |Envelope(e)| == |Envelope(e).Keys|;
  }

  lemma OneMoreKey(fields: map<string, JsValue>, key: string, v: JsValue)
    requires key !in fields
    ensures |fields[key := v]| == |fields| + 1
  {
    assert fields[key := v].Keys == fields.Keys + {key};
    assert |fields[key := v]| == |fields[key := v].Keys| && |fields| == |fields.Keys|;
  }

  lemma ReadyExactly(e: Event, cs: seq<Capability>)
    requires e.body == Ready(cs)
    ensures AcceptsReady(EncodeEvent(e)) <==> |cs| <= 2
  {
    EnvelopeIsFour(e);
    OneMoreKey(Envelope(e), "capabilities", EncodeCapabilities(cs));
  }

  lemma SelectionExactly(e: Event, selection: JsValue)
    requires e.body == Selection(selection)
    ensures AcceptsSelection(EncodeEvent(e)) <==> IsSelection(selection)
  {
    EnvelopeIsFour(e);
    OneMoreKey(Envelope(e), "selection", selection);
  }

  lemma NavigationExactly(e: Event, url: JsString)
    requires e.body == Navigated(url)
    ensures AcceptsNavigation(EncodeEvent(e)) <==> BoundedString(url, MAX_URL_LENGTH)
  {
    EnvelopeIsFour(e);
    OneMoreKey(Envelope(e), "url", Str(url));
  }

  lemma ConsoleExactly(e: Event, level: ConsoleLevel, message: JsString)
    requires e.body == ConsoleEntry(level, message)
    ensures AcceptsConsole(EncodeEvent(e)) <==> BoundedString(message, MAX_TEXT_LENGTH)
  {
    var fields := Envelope(e)["level" := Str(Lit(LevelText(level)))];
    EnvelopeIsFour(e);
    OneMoreKey(Envelope(e), "level", Str(Lit(LevelText(level))));
    OneMoreKey(fields, "message", Str(message));
  }

  lemma ErrorExactly(e: Event, code: ErrorCode, message: JsString)
    requires e.body == Failed(code, message)
    ensures AcceptsError(EncodeEvent(e)) <==> BoundedString(message, MAX_TEXT_LENGTH)
  {
    var fields := Envelope(e)["code" := Str(Lit(ErrorCodeText(code)))];
    EnvelopeIsFour(e);
    OneMoreKey(Envelope(e), "code", Str(Lit(ErrorCodeText(code))));
    OneMoreKey(fields, "message", Str(message));
  }

  /** Which validator decides, and that it decides by the bounds. */
  predicate AcceptsBody(b: EventBody, v: JsValue)
    requires v.Obj?
  {
    match b
    case Ready(_) => AcceptsReady(v)
    case Selection(_) => AcceptsSelection(v)
    case Navigated(_) => AcceptsNavigation(v)
    case ConsoleEntry(_, _) => AcceptsConsole(v)
    case Failed(_, _) => AcceptsError(v)
  }

  lemma BodyExactly(e: Event)
    ensures AcceptsBody(e.body, EncodeEvent(e)) <==> BodyOk(e.body)
  {
    match e.body
    case Ready(cs) => ReadyExactly(e, cs);
    case Selection(selection) => SelectionExactly(e, selection);
    case Navigated(url) => NavigationExactly(e, url);
    case ConsoleEntry(level, message) => ConsoleExactly(e, level, message);
    case Failed(code, message) => ErrorExactly(e, code, message);
  }

  lemma BodyDecides(e: Event, v: JsValue)
    requires v.Obj? && Field(v, "type") == Str(Lit(EventTypeText(e.body)))
    ensures AcceptsEvent(v) <==>
            && IsPlainRecord(v)
            && Field(v, "version") == VERSION
            && IsBoundedString(Field(v, "nonce"), MAX_NONCE_LENGTH)
            && IsBoundedString(Field(v, "requestId"), MAX_REQUEST_ID_LENGTH)
            && AcceptsBody(e.body, v)
  {
    EventTypesDiffer(e.body, Ready([]));
    EventTypesDiffer(e.body, Selection(Null));
    EventTypesDiffer(e.body, Navigated([]));
    EventTypesDiffer(e.body, ConsoleEntry(Log, []));
    EventTypesDiffer(e.body, Failed(PickerFailed, []));
  }

  lemma EnvelopeFields(e: Event)
    ensures var v := EncodeEvent(e);
            && IsPlainRecord(v)
            && Field(v, "version") == VERSION
            && Field(v, "type") == Str(Lit(EventTypeText(e.body)))
            && Field(v, "nonce") == Str(e.nonce)
            && Field(v, "requestId") == Str(e.requestId)
  {
  }

  /** The validator accepts the encoding of an event exactly if the event meets the bounds. */
  lemma AcceptsExactly(e: Event)
    ensures AcceptsEvent(EncodeEvent(e)) <==> EventOk(e)
  {
    EnvelopeFields(e);
    BodyDecides(e, EncodeEvent(e));
    BodyExactly(e);
  }
}
