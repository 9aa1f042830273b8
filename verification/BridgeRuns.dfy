/** What every run of the bridge keeps, whatever messages, clicks and calls it meets. */
module BridgeRuns {
  import opened Prelude
  import opened JsValues
  import opened Protocol
  import opened Selections
  import opened Bridge

  // ---------------------------------------------------------------- reading a log

  predicate IsAccepted(i: Item) {
    i.Accepted?
  }

  predicate IsConnect(i: Item) {
    i.Accepted? && i.command.kind.Connect?
  }

  predicate IsPosted(i: Item) {
    i.Posted?
  }

  predicate IsStart(i: Item) {
    i.Accepted? && i.command.kind.StartPicker?
  }

  predicate IsSelectionItem(i: Item) {
    i.Posted? && i.event.body.Selection?
  }

  /** An accepted command, or a selection that uses one up. */
  predicate IsMark(i: Item) {
    IsAccepted(i) || IsSelectionItem(i)
  }

  function Last(log: seq<Item>, p: Item -> bool): Option<Item> {
    if log == [] then None
    else if p(log[|log| - 1]) then Some(log[|log| - 1])
    else Last(log[..|log| - 1], p)
  }

  function Count(log: seq<Item>, p: Item -> bool): nat {
    if log == [] then 0
    else Count(log[..|log| - 1], p) + (if p(log[|log| - 1]) then 1 else 0)
  }

  lemma Appended(log: seq<Item>, item: Item)
    ensures (log + [item])[..|log + [item]| - 1] == log && (log + [item])[|log + [item]| - 1] == item
  {
  }

  // ---------------------------------------------------------------- the invariant

  /** The command that armed the picker, if the last mark of a log is one. */
  predicate Armed(log: seq<Item>, nonce: JsString, requestId: JsString) {
    var mark := Last(log, IsMark);
    && mark.Some? && IsStart(mark.value)
    && mark.value.command.nonce == nonce && mark.value.command.requestId == requestId
  }

  predicate ConnectedAs(log: seq<Item>, nonce: JsString, origin: JsString) {
    var connect := Last(log, IsConnect);
    connect.Some? && IsConnect(connect.value) && connect.value.command.nonce == nonce && connect.value.origin == origin
  }

  predicate LastRequest(log: seq<Item>, nonce: JsString, requestId: JsString) {
    var last := Last(log, IsAccepted);
    && last.Some? && IsAccepted(last.value)
    && last.value.command.nonce == nonce && last.value.command.requestId == requestId
  }

  predicate SameTarget(log: seq<Item>, target: JsString) {
    var posted := Last(log, IsPosted);
    posted.Some? ==> IsPosted(posted.value) && posted.value.target == target
  }

  /** What must have come before an event that the bridge posts. */
  predicate PostedOk(w: World, before: seq<Item>, e: Event, target: JsString) {
    && target != [] && Deliverable(w, target)
    && IsAllowedParentOrigin(w, target)
    && Destroyed !in before
    && ConnectedAs(before, e.nonce, target)
    && LastRequest(before, e.nonce, e.requestId)
    && SameTarget(before, target)
    && (e.body.Selection? ==> Armed(before, e.nonce, e.requestId))
    && BoundedString(e.nonce, MAX_NONCE_LENGTH)
    && BoundedString(e.requestId, MAX_REQUEST_ID_LENGTH)
  }

  /** What must have come before a command that the bridge accepts. */
  predicate AcceptedOk(w: World, before: seq<Item>, command: Command, origin: JsString, source: int) {
    && source == w.parent
    && CommandOk(command)
    && Destroyed !in before
    && SameTarget(before, origin)
    && if command.kind.Connect? then IsAllowedParentOrigin(w, origin)
       else Last(before, IsConnect).Some? && IsConnect(Last(before, IsConnect).value) &&
            Last(before, IsConnect).value.command.nonce == command.nonce
  }

  predicate AcceptedKind(i: Item, kind: CommandType) {
    i.Accepted? && i.command.kind == kind
  }

  predicate ItemOk(w: World, before: seq<Item>, item: Item) {
    match item
    case Posted(e, target) => PostedOk(w, before, e, target)
    case Accepted(command, origin, source) => AcceptedOk(w, before, command, origin, source)
    case Travelled(kind) => Travels(w, kind) && before != [] && AcceptedKind(before[|before| - 1], kind)
    case Destroyed => Destroyed !in before
  }

  predicate LogOk(w: World, log: seq<Item>) {
    log != [] ==> LogOk(w, log[..|log| - 1]) && ItemOk(w, log[..|log| - 1], log[|log| - 1])
  }

  /** Nonce, request and origin are set together or not at all. */
  predicate AllOrNone(s: State) {
    s.nonce.Some? == s.requestId.Some? && s.nonce.Some? == s.origin.Some?
  }

  predicate Connected(s: State) {
    s.nonce.Some? && s.requestId.Some? && s.origin.Some?
  }

  predicate ConnectionOk(w: World, s: State, log: seq<Item>)
    requires Connected(s)
  {
    && BoundedString(s.nonce.value, MAX_NONCE_LENGTH)
    && BoundedString(s.requestId.value, MAX_REQUEST_ID_LENGTH)
    && IsAllowedParentOrigin(w, s.origin.value)
    && ConnectedAs(log, s.nonce.value, s.origin.value)
    && LastRequest(log, s.nonce.value, s.requestId.value)
  }

  predicate StateOk(w: World, s: State, log: seq<Item>) {
    && AllOrNone(s)
    && (s.destroyed <==> Destroyed in log)
    && (s.destroyed <==> !s.listening)
    && (s.destroyed <==> s.channelDestroyed)
    && (s.destroyed ==> !Connected(s))
    && (!s.destroyed && Last(log, IsConnect).Some? ==> Connected(s))
    && (Connected(s) ==> ConnectionOk(w, s, log))
    && (s.picking ==> Connected(s) && Armed(log, s.nonce.value, s.requestId.value))
    && (!s.destroyed && Last(log, IsPosted).Some? ==>
          Connected(s) && s.origin.value != [] && SameTarget(log, s.origin.value))
  }

  predicate Inv(w: World, c: Config) {
    StateOk(w, c.state, c.log) && LogOk(w, c.log)
  }

  // ---------------------------------------------------------------- steps

  lemma PostKeeps(w: World, c: Config, body: EventBody)
    requires Inv(w, c) && Connected(c.state)
    requires body.Selection? ==> !c.state.picking && Armed(c.log, c.state.nonce.value, c.state.requestId.value)
    ensures var e := Event(c.state.nonce.value, c.state.requestId.value, body);
            Inv(w, Post(w, c, e)) && Post(w, c, e).state == c.state
  {
    var s := c.state;
    var e := Event(s.nonce.value, s.requestId.value, body);
    if Truthy(s.origin) {
      Appended(c.log, Posted(e, s.origin.value));
    }
  }

  lemma PostActiveKeeps(w: World, c: Config, body: EventBody)
    requires Inv(w, c)
    requires body.Selection? && Connected(c.state) ==>
               !c.state.picking && Armed(c.log, c.state.nonce.value, c.state.requestId.value)
    ensures Inv(w, PostActive(w, c, body)) && PostActive(w, c, body).state == c.state
  {
    if Active(c.state) { PostKeeps(w, c, body); }
  }

  lemma StopKeeps(w: World, c: Config)
    requires Inv(w, c)
    ensures Inv(w, StopPicking(c))
  {
  }

  lemma ConnectKeeps(w: World, c: Config, command: Command, m: Message, url: JsString)
    requires Inv(w, c) && command.kind.Connect? && CommandOk(command) && Trusts(w, c.state, m, command)
    ensures Inv(w, AcceptConnect(w, c, command, m, url))
  {
    var accepted := Accept(StopPicking(c), command, m);
    var connected := accepted.(state := accepted.state.(nonce := Some(command.nonce), origin := Some(m.origin)));
    Appended(c.log, Accepted(command, m.origin, m.source));
    assert Inv(w, connected);
    PostKeeps(w, connected, Ready(Capabilities(w)));
    var ready := Post(w, connected, Event(command.nonce, command.requestId, Ready(Capabilities(w))));
    PostActiveKeeps(w, ready, Navigated(url));
  }

  lemma AcceptKeeps(w: World, c: Config, command: Command, m: Message)
    requires Inv(w, c) && !command.kind.Connect? && CommandOk(command) && Trusts(w, c.state, m, command)
    requires c.state.picking ==> command.kind.StartPicker?
    ensures Inv(w, Accept(c, command, m))
  {
    Appended(c.log, Accepted(command, m.origin, m.source));
  }

  lemma TravelKeeps(w: World, c: Config, command: Command)
    requires Inv(w, c) && Travels(w, command.kind)
    requires c.log != [] && c.log[|c.log| - 1].Accepted? && c.log[|c.log| - 1].command == command
    ensures Inv(w, c.(log := c.log + [Travelled(command.kind)]))
  {
    Appended(c.log, Travelled(command.kind));
  }

  lemma OtherKeeps(w: World, c: Config, command: Command, m: Message, start: StartOutcome)
    requires Inv(w, c) && !command.kind.Connect? && CommandOk(command) && Trusts(w, c.state, m, command)
    ensures Inv(w, AcceptOther(w, c, command, m, start))
  {
    if command.kind.StartPicker? {
      AcceptKeeps(w, c, command, m);
      StartKeeps(w, Accept(c, command, m), start);
    } else {
      StopKeeps(w, c);
      AcceptKeeps(w, StopPicking(c), command, m);
      var stopped := Accept(StopPicking(c), command, m);
      assert stopped == StopPicking(Accept(c, command, m));
      if Travels(w, command.kind) { TravelKeeps(w, stopped, command); }
    }
  }

  lemma StartKeeps(w: World, c: Config, start: StartOutcome)
    requires Inv(w, c) && Connected(c.state) && Armed(c.log, c.state.nonce.value, c.state.requestId.value)
    ensures Inv(w, StartPicking(w, c, start))
  {
    match start
    case Started =>
    case NoDocument => PostActiveKeeps(w, c, Failed(PickerFailed, NO_DOCUMENT));
    case StartFails =>
      StopKeeps(w, c);
      PostActiveKeeps(w, StopPicking(c), Failed(PickerFailed, START_FAILED));
  }

  lemma ReceiveKeeps(w: World, c: Config, m: Message, start: StartOutcome, url: JsString)
    requires Inv(w, c)
    ensures Inv(w, Receive(w, c, m, start, url))
  {
    var parsed := ParseCommand(m.data);
    if parsed.Some? && Trusts(w, c.state, m, parsed.value) {
      ParseCommandExact(m.data, parsed.value);
      if parsed.value.kind.Connect? {
        ConnectKeeps(w, c, parsed.value, m, url);
      } else {
        OtherKeeps(w, c, parsed.value, m, start);
      }
    }
  }

  lemma DestroyKeeps(w: World, c: Config)
    requires Inv(w, c)
    ensures Inv(w, DestroyBridge(c))
  {
    Appended(c.log, Destroyed);
  }

  lemma StepKeeps(w: World, c: Config, input: Input)
    requires Inv(w, c)
    ensures Inv(w, Step(w, c, input))
  {
    match input
    case Deliver(m, start, url) => ReceiveKeeps(w, c, m, start, url);
    case Navigate(url) => PostActiveKeeps(w, c, Navigated(url));
    case ConsoleCall(level, previews) =>
      PostActiveKeeps(w, c, ConsoleEntry(level, BoundedMessage(previews, w.redact)));
    case Click(element, _) =>
      if c.state.picking && element.Some? {
        StopKeeps(w, c);
        PostActiveKeeps(w, StopPicking(c), Failed(PickerFailed, SELECTION_FAILED));
        PostActiveKeeps(w, StopPicking(c), Selection(SelectionFor(w.nativeEscape, element.value)));
      }
    case KeyDown(_) => StopKeeps(w, c);
    case Destroy => DestroyKeeps(w, c);
  }

  /** Every reachable state keeps the invariant. */
  lemma {:induction false} RunKeeps(w: World, inputs: seq<Input>)
    ensures Inv(w, Run(w, inputs))
  {
    if inputs != [] {
      RunKeeps(w, inputs[..|inputs| - 1]);
      StepKeeps(w, Run(w, inputs[..|inputs| - 1]), inputs[|inputs| - 1]);
    }
  }
}
