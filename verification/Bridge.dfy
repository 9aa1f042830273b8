/**
 The target side of the browser bridge: the message handler, the picker it drives, the default
 post-message channel, and the console and history observers.  `Step` says what one occurrence
 does; the class below does the same by assigning to its fields.
 */
module Bridge {
  import opened Prelude
  import opened JsValues
  import opened Protocol
  import opened Selections

  // ---------------------------------------------------------------- options

  datatype Options = Options(
    parentOrigin: Option<JsString>,
    allowedParentOrigins: seq<JsString>,
    capabilities: Option<seq<Capability>>)

  datatype Url = Url(protocol: JsString, hostname: JsString)

  /** What the bridge is given: its options, the browser's functions, and the window it answers to. */
  datatype World = World(
    options: Options,
    parseUrl: JsString -> Option<Url>,
    nativeEscape: Option<JsString -> JsString>,
    redact: JsString -> JsString,
    parent: int)

  predicate IsLoopback(url: Url) {
    && url.protocol == Lit("http:")
    && (|| url.hostname == Lit("localhost") || url.hostname == Lit("127.0.0.1")
        || url.hostname == Lit("[::1]") || url.hostname == Lit("::1"))
  }

  /** `isAllowedParentOrigin`. */
  predicate IsAllowedParentOrigin(w: World, origin: JsString) {
    if w.options.parentOrigin.Some? then w.options.parentOrigin.value == origin
    else origin in w.options.allowedParentOrigins || (var url := w.parseUrl(origin); url.Some? && IsLoopback(url.value))
  }

  function Capabilities(w: World): seq<Capability> {
    match w.options.capabilities
    case Some(given) => given
    case None =>
      if Truthy(w.options.parentOrigin) || |w.options.allowedParentOrigins| > 0
      then [Navigation, Console]
      else []
  }

  /** JavaScript counts a missing string and the empty string as false. */
  predicate Truthy(s: Option<JsString>) {
    s.Some? && s.value != []
  }

  // ---------------------------------------------------------------- state and log

  datatype State = State(
    nonce: Option<JsString>,
    requestId: Option<JsString>,
    origin: Option<JsString>,
    picking: bool,
    listening: bool,
    channelDestroyed: bool,
    destroyed: bool)

  /** What happened, in order. */
  datatype Item =
    | Accepted(command: Command, origin: JsString, source: int)
    | Posted(event: Event, target: JsString)
    | Travelled(kind: CommandType)
    | Destroyed

  datatype Config = Config(state: State, log: seq<Item>)

  const INITIAL := Config(State(None, None, None, false, true, false, false), [])

  datatype Message = Message(data: JsValue, origin: JsString, source: int)

  datatype StartOutcome = Started | NoDocument | StartFails

  /**
   What may happen to an installed bridge.  A page may go on calling observer wrappers that are
   still in place after `destroy`, so console calls and navigations may come at any time.  The page
   may also make collecting a selection throw; `collects` says that it did not.
   */
  datatype Input =
    | Deliver(message: Message, start: StartOutcome, url: JsString)
    | Navigate(url: JsString)
    | ConsoleCall(level: ConsoleLevel, previews: seq<JsString>)
    | Click(element: Option<Chain>, collects: bool)
    | KeyDown(escape: bool)
    | Destroy

  // ---------------------------------------------------------------- steps

  /** A value that `postMessage` can copy; functions are not. */
  predicate Cloneable(v: JsValue) {
    match v
    case Func => false
    case Arr(items) => forall i :: 0 <= i < |items| ==> Cloneable(items[i])
    case Obj(_, fields) => forall key :: key in fields ==> Cloneable(fields[key])
    case _ => true
  }

  /** A target origin that `postMessage` takes; for any other it throws. */
  predicate Deliverable(w: World, target: JsString) {
    target == Lit("*") || target == Lit("/") || w.parseUrl(target).Some?
  }

  /**
   `post`, through `send` of the channel.  Where `postMessage` throws because of its target, no
   caller goes on to post anything else.
   */
  function Post(w: World, c: Config, e: Event): Config {
    if Truthy(c.state.origin) && !c.state.channelDestroyed && Deliverable(w, c.state.origin.value)
    then c.(log := c.log + [Posted(e, c.state.origin.value)])
    else c
  }

  predicate Active(s: State) {
    Truthy(s.nonce) && Truthy(s.requestId)
  }

  function PostActive(w: World, c: Config, body: EventBody): Config {
    if Active(c.state) then Post(w, c, Event(c.state.nonce.value, c.state.requestId.value, body)) else c
  }

  /** What the bridge makes of an error that the picker reports. */
  function ErrorText(code: string, message: string): JsString {
    Lit(code) + Lit(": ") + Lit(message)
  }

  const SELECTION_FAILED := ErrorText("selection_failed", "Unable to collect a safe element selection.")
  const NO_DOCUMENT := ErrorText("picker_unavailable", "The picker requires a browser document.")
  const START_FAILED := ErrorText("picker_start_failed", "Unable to start the element picker.")

  function SendNavigation(w: World, c: Config, url: JsString): Config {
    if Navigation in Capabilities(w) then PostActive(w, c, Navigated(url)) else c
  }

  function SendConsole(w: World, c: Config, level: ConsoleLevel, previews: seq<JsString>): Config {
    if Console in Capabilities(w)
    then PostActive(w, c, ConsoleEntry(level, BoundedMessage(previews, w.redact)))
    else c
  }

  function StopPicking(c: Config): Config {
    c.(state := c.state.(picking := false))
  }

  /** `start` of the picker; it does nothing if the picker is active. */
  function StartPicking(w: World, c: Config, outcome: StartOutcome): Config {
    if c.state.picking then c
    else
      match outcome
      case Started => c.(state := c.state.(picking := true))
      case NoDocument => PostActive(w, c, Failed(PickerFailed, NO_DOCUMENT))
      case StartFails => PostActive(w, StopPicking(c), Failed(PickerFailed, START_FAILED))
  }

  /** What a click does with the selection it collected, if it could; the picker has been stopped before. */
  function AnswerClick(w: World, c: Config, collected: Option<JsValue>): Config {
    if collected.None? || (Truthy(c.state.origin) && Active(c.state) && !Cloneable(collected.value))
    then PostActive(w, StopPicking(c), Failed(PickerFailed, SELECTION_FAILED))
    else PostActive(w, StopPicking(c), Selection(collected.value))
  }

  function Collected(w: World, chain: Chain, collects: bool): Option<JsValue> {
    if collects then Some(SelectionFor(w.nativeEscape, chain)) else None
  }

  /** The picker's click handler. */
  function ClickElement(w: World, c: Config, chain: Chain, collects: bool): Config {
    AnswerClick(w, c, Collected(w, chain, collects))
  }

  function Accept(c: Config, command: Command, m: Message): Config {
    Config(c.state.(requestId := Some(command.requestId)), c.log + [Accepted(command, m.origin, m.source)])
  }

  function AcceptConnect(w: World, c: Config, command: Command, m: Message, url: JsString): Config {
    var accepted := Accept(StopPicking(c), command, m);
    var connected := accepted.(state := accepted.state.(nonce := Some(command.nonce), origin := Some(m.origin)));
    SendNavigation(w, Post(w, connected, Event(command.nonce, command.requestId, Ready(Capabilities(w)))), url)
  }

  predicate Travels(w: World, kind: CommandType) {
    (kind.GoBack? || kind.GoForward? || kind.Reload?) && Navigation in Capabilities(w)
  }

  function AcceptOther(w: World, c: Config, command: Command, m: Message, start: StartOutcome): Config {
    var accepted := Accept(c, command, m);
    if command.kind.StartPicker? then StartPicking(w, accepted, start)
    else
      var stopped := StopPicking(accepted);
      if Travels(w, command.kind) then stopped.(log := stopped.log + [Travelled(command.kind)]) else stopped
  }

  /** Whether the checks of the message handler let a command through. */
  predicate Trusts(w: World, s: State, m: Message, command: Command) {
    && s.listening
    && m.source == w.parent
    && (Truthy(s.origin) ==> m.origin == s.origin.value)
    && if command.kind.Connect? then IsAllowedParentOrigin(w, m.origin) else Some(command.nonce) == s.nonce
  }

  /** The message handler. */
  function Receive(w: World, c: Config, m: Message, start: StartOutcome, url: JsString): Config {
    match ParseCommand(m.data)
    case None => c
    case Some(command) =>
      if !Trusts(w, c.state, m, command) then c
      else if command.kind.Connect? then AcceptConnect(w, c, command, m, url)
      else AcceptOther(w, c, command, m, start)
  }

  function DestroyBridge(c: Config): Config {
    if c.state.destroyed then c
    else Config(State(None, None, None, false, false, true, true), c.log + [Destroyed])
  }

  function Step(w: World, c: Config, input: Input): Config {
    match input
    case Deliver(m, start, url) => Receive(w, c, m, start, url)
    case Navigate(url) => SendNavigation(w, c, url)
    case ConsoleCall(level, previews) => SendConsole(w, c, level, previews)
    case Click(element, collects) =>
      if c.state.picking && element.Some? then ClickElement(w, c, element.value, collects) else c
    case KeyDown(escape) => if c.state.picking && escape then StopPicking(c) else c
    case Destroy => DestroyBridge(c)
  }

  /** The run of a bridge that was just installed. */
  function Run(w: World, inputs: seq<Input>): Config {
    if inputs == [] then INITIAL else Step(w, Run(w, inputs[..|inputs| - 1]), inputs[|inputs| - 1])
  }

  // ---------------------------------------------------------------- the bridge as an object

  class BrowserBridge {
    const world: World
    var activeNonce: Option<JsString>
    var activeRequestId: Option<JsString>
    var activeParentOrigin: Option<JsString>
    var picking: bool
    var listening: bool
    var channelDestroyed: bool
    var destroyed: bool
    var log: seq<Item>

    function View(): Config
      reads this
    {
      Config(State(activeNonce, activeRequestId, activeParentOrigin, picking, listening, channelDestroyed, destroyed),
             log)
    }

    /** `installBrowserBridge`. */
    constructor (world: World)
      ensures View() == INITIAL && this.world == world
    {
      this.world := world;
      activeNonce, activeRequestId, activeParentOrigin := None, None, None;
      picking, listening, channelDestroyed, destroyed, log := false, true, false, false, [];
    }

    /** `post`. */
    method PostEvent(e: Event)
      modifies this`log
      ensures View() == Post(world, old(View()), e)
    {
      if Truthy(activeParentOrigin) {
        if !channelDestroyed && Deliverable(world, activeParentOrigin.value) {
          log := log + [Posted(e, activeParentOrigin.value)];
        }
      }
    }

    method PostBody(body: EventBody)
      modifies this`log
      ensures View() == PostActive(world, old(View()), body)
    {
      if Truthy(activeNonce) && Truthy(activeRequestId) {
        PostEvent(Event(activeNonce.value, activeRequestId.value, body));
      }
    }

    method OnNavigate(url: JsString)
      modifies this`log
      ensures View() == Step(world, old(View()), Navigate(url))
    {
      if Navigation in Capabilities(world) {
        PostBody(Navigated(url));
      }
    }

    method OnConsole(level: ConsoleLevel, previews: seq<JsString>)
      modifies this`log
      ensures View() == Step(world, old(View()), ConsoleCall(level, previews))
    {
      if Console in Capabilities(world) {
        PostBody(ConsoleEntry(level, BoundedMessage(previews, world.redact)));
      }
    }

    method Start(outcome: StartOutcome)
      modifies this`picking, this`log
      ensures View() == StartPicking(world, old(View()), outcome)
    {
      if picking {
        return;
      }
      match outcome {
        case Started => picking := true;
        case NoDocument => PostBody(Failed(PickerFailed, NO_DOCUMENT));
        case StartFails =>
          picking := false;
          PostBody(Failed(PickerFailed, START_FAILED));
      }
    }

    method PostSelection(collected: Option<JsValue>)
      modifies this`picking, this`log
      ensures View() == AnswerClick(world, old(View()), collected)
    {
      picking := false;
      if collected.None? {
        PostBody(Failed(PickerFailed, SELECTION_FAILED));
        return;
      }
      var active := Truthy(activeParentOrigin) && Truthy(activeNonce) && Truthy(activeRequestId);
      if active && !Cloneable(collected.value) {
        PostBody(Failed(PickerFailed, SELECTION_FAILED));
      } else {
        PostBody(Selection(collected.value));
      }
    }

    method OnClick(element: Option<Chain>, collects: bool)
      modifies this`picking, this`log
      ensures View() == Step(world, old(View()), Click(element, collects))
    {
      if picking && element.Some? {
        PostSelection(Collected(world, element.value, collects));
      }
    }

    method OnKeyDown(escape: bool)
      modifies this`picking
      ensures View() == Step(world, old(View()), KeyDown(escape))
    {
      if escape {
        picking := false;
      }
    }

    method OnMessage(m: Message, start: StartOutcome, url: JsString)
      modifies this`activeNonce, this`activeRequestId, this`activeParentOrigin, this`picking, this`log
      ensures View() == Step(world, old(View()), Deliver(m, start, url))
    {
      if !listening || m.source != world.parent {
        return;
      }
      if Truthy(activeParentOrigin) && m.origin != activeParentOrigin.value {
        return;
      }
      var parsed := ParseCommand(m.data);
      if parsed.None? {
        return;
      }
      var command := parsed.value;
      if command.kind.Connect? {
        if IsAllowedParentOrigin(world, m.origin) {
          OnConnect(command, m, url);
        }
      } else if Some(command.nonce) == activeNonce {
        OnCommand(command, m, start);
      }
    }

    method OnConnect(command: Command, m: Message, url: JsString)
      modifies this`activeNonce, this`activeRequestId, this`activeParentOrigin, this`picking, this`log
      ensures View() == AcceptConnect(world, old(View()), command, m, url)
    {
      log := log + [Accepted(command, m.origin, m.source)];
      picking := false;
      activeParentOrigin := Some(m.origin);
      activeNonce := Some(command.nonce);
      activeRequestId := Some(command.requestId);
      PostEvent(Event(command.nonce, command.requestId, Ready(Capabilities(world))));
      OnNavigate(url);
    }

    method OnCommand(command: Command, m: Message, start: StartOutcome)
      modifies this`activeRequestId, this`picking, this`log
      ensures View() == AcceptOther(world, old(View()), command, m, start)
    {
      log := log + [Accepted(command, m.origin, m.source)];
      activeRequestId := Some(command.requestId);
      if command.kind.StartPicker? {
        Start(start);
        return;
      }
      picking := false;
      if Travels(world, command.kind) {
        log := log + [Travelled(command.kind)];
      }
    }

    /** `destroy`. */
    method DestroyOnce()
      modifies this
      ensures View() == Step(world, old(View()), Destroy)
    {
      if destroyed {
        return;
      }
      destroyed := true;
      picking := false;
      listening := false;
      channelDestroyed := true;
      activeNonce, activeRequestId, activeParentOrigin := None, None, None;
      log := log + [Destroyed];
    }
  }
}
