/** The guarantees of the bridge, for every run. */
module BridgeTheorems {
  import opened Prelude
  import opened JsValues
  import opened PageText
  import opened Protocol
  import opened Selections
  import opened Bridge
  import opened BridgeRuns

  // ---------------------------------------------------------------- positions in a log

  /** Position j holds the last item before position i that satisfies p. */
  predicate LastBefore(log: seq<Item>, j: nat, i: nat, p: Item -> bool) {
    j < i <= |log| && p(log[j]) && forall k :: j < k < i ==> !p(log[k])
  }

  lemma {:induction false} LastHasPosition(log: seq<Item>, p: Item -> bool) returns (j: nat)
    requires Last(log, p).Some?
    ensures LastBefore(log, j, |log|, p) && log[j] == Last(log, p).value
  {
    if p(log[|log| - 1]) {
      j := |log| - 1;
    } else {
      j := LastHasPosition(log[..|log| - 1], p);
    }
  }

  lemma {:induction false} LastExists(log: seq<Item>, p: Item -> bool, k: nat)
    requires k < |log| && p(log[k])
    ensures Last(log, p).Some?
  {
    if !p(log[|log| - 1]) { LastExists(log[..|log| - 1], p, k); }
  }

  lemma {:induction false} ItemsAreOk(w: World, log: seq<Item>, i: nat)
    requires LogOk(w, log) && i < |log|
    ensures ItemOk(w, log[..i], log[i])
  {
    if i < |log| - 1 {
      ItemsAreOk(w, log[..|log| - 1], i);
      assert log[..|log| - 1][..i] == log[..i];
    }
  }

  lemma RunItemIsOk(w: World, inputs: seq<Input>, i: nat)
    requires i < |Run(w, inputs).log|
    ensures ItemOk(w, Run(w, inputs).log[..i], Run(w, inputs).log[i])
  {
    RunKeeps(w, inputs);
    ItemsAreOk(w, Run(w, inputs).log, i);
  }

  // ---------------------------------------------------------------- who is addressed

  /** In every reachable state nonce, request and parent origin are all set or all unset, and unset once destroyed. */
  lemma SetTogether(w: World, inputs: seq<Input>)
    ensures var s := Run(w, inputs).state;
            && s.nonce.Some? == s.requestId.Some? == s.origin.Some?
            && (s.destroyed ==> s.nonce.None? && !s.picking)
  {
    RunKeeps(w, inputs);
  }

  /**
   An origin that may connect: the configured parent origin if there is one; otherwise a listed
   origin, or the address of a loopback host over plain HTTP.
   */
  predicate Admits(w: World, origin: JsString) {
    && (w.options.parentOrigin.Some? ==> origin == w.options.parentOrigin.value)
    && (w.options.parentOrigin.None? ==>
          || origin in w.options.allowedParentOrigins
          || (&& w.parseUrl(origin).Some? && w.parseUrl(origin).value.protocol == Lit("http:")
              && w.parseUrl(origin).value.hostname in
                 [Lit("localhost"), Lit("127.0.0.1"), Lit("[::1]"), Lit("::1")]))
  }

  lemma AllowedExactly(w: World, origin: JsString)
    ensures IsAllowedParentOrigin(w, origin) <==> Admits(w, origin)
  {
  }

  /** In every run an accepted connect comes from the parent, from an admitted origin. */
  lemma ConnectsAreAdmitted(w: World, inputs: seq<Input>, i: nat)
    requires i < |Run(w, inputs).log| && IsConnect(Run(w, inputs).log[i])
    ensures Run(w, inputs).log[i].source == w.parent && Admits(w, Run(w, inputs).log[i].origin)
  {
    RunItemIsOk(w, inputs, i);
    AllowedExactly(w, Run(w, inputs).log[i].origin);
  }

  /**
   Every event goes to an admitted origin, that of the last connect accepted before it, carries
   the nonce of that connect, and comes before any destroy.
   */
  lemma EventsAreAddressed(w: World, inputs: seq<Input>, i: nat) returns (j: nat)
    requires i < |Run(w, inputs).log| && Run(w, inputs).log[i].Posted?
    ensures var log := Run(w, inputs).log;
            && LastBefore(log, j, i, IsConnect)
            && log[i].target == log[j].origin && Reaches(w, log[i].target)
            && log[i].event.nonce == log[j].command.nonce
            && Admits(w, log[i].target)
            && Destroyed !in log[..i]
  {
    var log := Run(w, inputs).log;
    RunItemIsOk(w, inputs, i);
    AllowedExactly(w, log[i].target);
    j := ConnectedSince(log[..i], log[i].event.nonce, log[i].target);
    assert forall k :: 0 <= k < i ==> log[..i][k] == log[k];
  }

  lemma ConnectedSince(log: seq<Item>, nonce: JsString, origin: JsString) returns (j: nat)
    requires ConnectedAs(log, nonce, origin)
    ensures LastBefore(log, j, |log|, IsConnect) && log[j].command.nonce == nonce && log[j].origin == origin
  {
    j := LastHasPosition(log, IsConnect);
  }

  /** Every event answers the last accepted command: it carries that command's nonce and request. */
  lemma EventsAnswerTheLastCommand(w: World, inputs: seq<Input>, i: nat) returns (j: nat)
    requires i < |Run(w, inputs).log| && Run(w, inputs).log[i].Posted?
    ensures var log := Run(w, inputs).log;
            && LastBefore(log, j, i, IsAccepted)
            && log[i].event.nonce == log[j].command.nonce
            && log[i].event.requestId == log[j].command.requestId
  {
    var log := Run(w, inputs).log;
    RunItemIsOk(w, inputs, i);
    j := RequestedSince(log[..i], log[i].event.nonce, log[i].event.requestId);
    assert forall k :: 0 <= k < i ==> log[..i][k] == log[k];
  }

  lemma RequestedSince(log: seq<Item>, nonce: JsString, requestId: JsString) returns (j: nat)
    requires LastRequest(log, nonce, requestId)
    ensures LastBefore(log, j, |log|, IsAccepted)
    ensures log[j].command.nonce == nonce && log[j].command.requestId == requestId
  {
    j := LastHasPosition(log, IsAccepted);
  }

  /** All events of a run go to one origin. */
  lemma {:induction false} OneTarget(w: World, inputs: seq<Input>, i: nat, j: nat)
    requires i <= j < |Run(w, inputs).log|
    requires Run(w, inputs).log[i].Posted? && Run(w, inputs).log[j].Posted?
    ensures Run(w, inputs).log[i].target == Run(w, inputs).log[j].target
    decreases j
  {
    var log := Run(w, inputs).log;
    if i < j {
      RunItemIsOk(w, inputs, j);
      LastExists(log[..j], IsPosted, i);
      var k := LastHasPosition(log[..j], IsPosted);
      OneTarget(w, inputs, i, k);
    }
  }

  lemma PostKeepsState(w: World, c: Config, e: Event, body: EventBody)
    ensures Post(w, c, e).state == c.state && PostActive(w, c, body).state == c.state
  {
  }

  /** A message leaves the parent origin as it is, or sets it to its own where none, or an empty one, was set. */
  lemma ReceiveOrigin(w: World, c: Config, m: Message, start: StartOutcome, url: JsString)
    ensures var s, s' := c.state, Receive(w, c, m, start, url).state;
            && s'.destroyed == s.destroyed
            && (s'.origin == s.origin || (s'.origin == Some(m.origin) && !Truthy(s.origin)))
  {
    match ParseCommand(m.data)
    case None =>
    case Some(command) =>
      var accepted := Accept(c, command, m);
      PostKeepsState(w, accepted, Event([], [], Ready([])), Failed(PickerFailed, NO_DOCUMENT));
      PostKeepsState(w, StopPicking(accepted), Event([], [], Ready([])), Failed(PickerFailed, START_FAILED));
  }

  lemma StepOrigin(w: World, c: Config, input: Input)
    requires !Step(w, c, input).state.destroyed
    ensures !c.state.destroyed
    ensures var s, s' := c.state, Step(w, c, input).state;
            s'.origin == s.origin || (s'.origin.Some? && !Truthy(s.origin))
  {
    match input
    case Deliver(m, start, url) => ReceiveOrigin(w, c, m, start, url);
    case Navigate(url) => PostKeepsState(w, c, Event([], [], Ready([])), Navigated(url));
    case ConsoleCall(level, previews) =>
      PostKeepsState(w, c, Event([], [], Ready([])), ConsoleEntry(level, BoundedMessage(previews, w.redact)));
    case Click(element, collects) => if element.Some? { ClickOrigin(w, c, Collected(w, element.value, collects)); }
    case KeyDown(_) =>
    case Destroy =>
  }

  lemma ClickOrigin(w: World, c: Config, collected: Option<JsValue>)
    ensures AnswerClick(w, c, collected).state == c.state.(picking := false)
  {
  }

  /** An empty parent origin does not count as set: the next allowed connect replaces it. */
  lemma EmptyOriginIsReplaced(w: World, c: Config, m: Message, start: StartOutcome, url: JsString, command: Command)
    requires c.state.listening && !Truthy(c.state.origin)
    requires m.source == w.parent && Admits(w, m.origin)
    requires m.data == EncodeCommand(command) && CommandOk(command) && command.kind.Connect?
    ensures var s' := Receive(w, c, m, start, url).state;
            s'.origin == Some(m.origin) && s'.listening && s'.destroyed == c.state.destroyed
  {
    ParseCommandExact(m.data, command);
    AllowedExactly(w, m.origin);
  }

  lemma DestroyedStays(w: World, c: Config, input: Input)
    requires Inv(w, c) && c.state.destroyed
    ensures Step(w, c, input) == c
  {
  }

  lemma Shorten(inputs: seq<Input>, n: nat)
    requires n < |inputs|
    ensures inputs[..|inputs| - 1][..n] == inputs[..n]
  {
  }

  /** Once destroyed, nothing happens any more: no state changes and nothing is posted, whatever is still called. */
  lemma {:induction false} NothingAfterDestroy(w: World, inputs: seq<Input>, n: nat)
    requires n <= |inputs| && Run(w, inputs[..n]).state.destroyed
    ensures Run(w, inputs) == Run(w, inputs[..n])
    decreases |inputs|
  {
    if n < |inputs| {
      var init := inputs[..|inputs| - 1];
      Shorten(inputs, n);
      NothingAfterDestroy(w, init, n);
      RunKeeps(w, init);
      DestroyedStays(w, Run(w, init), inputs[|inputs| - 1]);
    } else {
      assert inputs[..n] == inputs;
    }
  }

  /** A parent origin that is set and not empty is kept until destroy. */
  lemma {:induction false} OriginIsKept(w: World, inputs: seq<Input>, n: nat)
    requires n <= |inputs| && Truthy(Run(w, inputs[..n]).state.origin) && !Run(w, inputs).state.destroyed
    ensures Run(w, inputs).state.origin == Run(w, inputs[..n]).state.origin
    decreases |inputs|
  {
    if n < |inputs| {
      var init := inputs[..|inputs| - 1];
      Shorten(inputs, n);
      StepOrigin(w, Run(w, init), inputs[|inputs| - 1]);
      OriginIsKept(w, init, n);
    } else {
      assert inputs[..n] == inputs;
    }
  }

  lemma {:induction false} OriginIsNotLost(w: World, inputs: seq<Input>, n: nat)
    requires n <= |inputs| && Run(w, inputs[..n]).state.origin.Some? && !Run(w, inputs).state.destroyed
    ensures Run(w, inputs).state.origin.Some?
    decreases |inputs|
  {
    if n < |inputs| {
      var init := inputs[..|inputs| - 1];
      Shorten(inputs, n);
      StepOrigin(w, Run(w, init), inputs[|inputs| - 1]);
      OriginIsNotLost(w, init, n);
    } else {
      assert inputs[..n] == inputs;
    }
  }

  /** A parent origin that is set after n inputs is the same after all of them, unless the bridge was destroyed. */
  ghost predicate KeepsOriginSince(w: World, inputs: seq<Input>, n: nat) {
    n <= |inputs| && Run(w, inputs[..n]).state.origin.Some? && !Run(w, inputs).state.destroyed ==>
      Run(w, inputs).state.origin == Run(w, inputs[..n]).state.origin
  }

  ghost predicate KeepsOrigin(w: World) {
    forall inputs, n {:trigger KeepsOriginSince(w, inputs, n)} :: 0 <= n ==> KeepsOriginSince(w, inputs, n)
  }

  /** The options allow the empty origin and another one as well. */
  ghost predicate AllowsEmptyAndOther(w: World) {
    Admits(w, []) && exists o :: o != [] && Admits(w, o)
  }

  lemma KeptUnlessEmpty(w: World, inputs: seq<Input>, n: nat)
    requires !AllowsEmptyAndOther(w)
    ensures KeepsOriginSince(w, inputs, n)
  {
    if n <= |inputs| && Run(w, inputs[..n]).state.origin.Some? && !Run(w, inputs).state.destroyed {
      RunKeeps(w, inputs[..n]);
      RunKeeps(w, inputs);
      OriginIsNotLost(w, inputs, n);
      AllowedExactly(w, Run(w, inputs[..n]).state.origin.value);
      AllowedExactly(w, Run(w, inputs).state.origin.value);
      if Truthy(Run(w, inputs[..n]).state.origin) { OriginIsKept(w, inputs, n); }
    }
  }

  /** A connect from the given origin. */
  function ConnectFrom(w: World, origin: JsString): Input {
    Deliver(Message(EncodeCommand(Command(Connect, [0x61], [0x61])), origin, w.parent), Started, [])
  }

  lemma ConnectReplaces(w: World, c: Config, origin: JsString)
    requires c.state.listening && !Truthy(c.state.origin) && Admits(w, origin)
    ensures var s' := Step(w, c, ConnectFrom(w, origin)).state;
            s'.origin == Some(origin) && s'.listening && s'.destroyed == c.state.destroyed
  {
    var command := Command(Connect, [0x61], [0x61]);
    assert CommandOk(command);
    EmptyOriginIsReplaced(w, c, Message(EncodeCommand(command), origin, w.parent), Started, [], command);
  }

  /** Two connects, first from the empty origin and then from another one. */
  lemma SecondConnectReplaces(w: World, o: JsString)
    requires Admits(w, []) && o != [] && Admits(w, o)
    ensures !KeepsOriginSince(w, [ConnectFrom(w, []), ConnectFrom(w, o)], 1)
  {
    var inputs := [ConnectFrom(w, []), ConnectFrom(w, o)];
    assert inputs[..1] == [ConnectFrom(w, [])] && inputs[..1][..0] == [] && inputs[..|inputs| - 1] == inputs[..1];
    assert Run(w, inputs[..1]) == Step(w, Run(w, []), ConnectFrom(w, []));
    ConnectReplaces(w, INITIAL, []);
    ConnectReplaces(w, Run(w, inputs[..1]), o);
  }

  /**
   In every run a parent origin, once set, is kept until destroy, if and only if the options do not
   allow the empty origin along with another one.
   */
  lemma OriginIsKeptExactly(w: World)
    ensures KeepsOrigin(w) <==> !AllowsEmptyAndOther(w)
  {
    if AllowsEmptyAndOther(w) {
      var o :| o != [] && Admits(w, o);
      SecondConnectReplaces(w, o);
    } else {
      forall inputs, n | 0 <= n ensures KeepsOriginSince(w, inputs, n) { KeptUnlessEmpty(w, inputs, n); }
    }
  }

  // ---------------------------------------------------------------- commands

  /** A command is let through: from the parent, and as the connection, if there is one, has it. */
  predicate LetsThrough(w: World, s: State, m: Message, command: Command) {
    && s.listening && m.source == w.parent
    && (s.origin.Some? && s.origin.value != [] ==> m.origin == s.origin.value)
    && (command.kind == Connect ==> Admits(w, m.origin))
    && (command.kind != Connect ==> s.nonce == Some(command.nonce))
  }

  lemma TrustsExactly(w: World, s: State, m: Message, command: Command)
    ensures Trusts(w, s, m, command) <==> LetsThrough(w, s, m, command)
  {
    AllowedExactly(w, m.origin);
  }

  lemma Accepting(w: World, c: Config, m: Message, start: StartOutcome, url: JsString, command: Command)
    requires ParseCommand(m.data) == Some(command) && Trusts(w, c.state, m, command)
    ensures c.log + [Accepted(command, m.origin, m.source)] <= Receive(w, c, m, start, url).log
  {
  }

  /**
   A message is acted on exactly if it is the encoding of a well-formed command, from the parent,
   from the connected origin if there is one, and, for a connect, from an admitted origin or,
   for any other command, with the nonce of the connection.  Otherwise nothing changes.
   */
  lemma AcceptedExactly(w: World, c: Config, m: Message, start: StartOutcome, url: JsString, command: Command)
    ensures var c' := Receive(w, c, m, start, url);
            && (m.data == EncodeCommand(command) && CommandOk(command) && LetsThrough(w, c.state, m, command) <==>
                c.log + [Accepted(command, m.origin, m.source)] <= c'.log)
            && (c'.log == c.log ==> c' == c)
  {
    ParseCommandExact(m.data, command);
    TrustsExactly(w, c.state, m, command);
    var parsed := ParseCommand(m.data);
    if parsed.Some? && Trusts(w, c.state, m, parsed.value) {
      Accepting(w, c, m, start, url, parsed.value);
      assert Receive(w, c, m, start, url).log[|c.log|] == Accepted(parsed.value, m.origin, m.source);
    }
  }

  /** What a log says of the connection: a command fits the last connect accepted, or is a first one. */
  predicate Fits(w: World, log: seq<Item>, m: Message, command: Command) {
    && Destroyed !in log && m.source == w.parent
    && (command.kind == Connect ==> Admits(w, m.origin))
    && match Last(log, IsConnect)
       case None => command.kind == Connect
       case Some(connect) =>
         && connect.Accepted?
         && (connect.origin != [] ==> m.origin == connect.origin)
         && (command.kind != Connect ==> command.nonce == connect.command.nonce)
  }

  lemma {:induction false} LastIs(log: seq<Item>, p: Item -> bool)
    ensures Last(log, p).Some? ==> p(Last(log, p).value)
  {
    if log != [] { LastIs(log[..|log| - 1], p); }
  }

  lemma FitsIsLetThrough(w: World, c: Config, m: Message, command: Command)
    requires Inv(w, c)
    ensures Fits(w, c.log, m, command) <==> LetsThrough(w, c.state, m, command)
  {
    LastIs(c.log, IsConnect);
  }

  /**
   In every run, the next message is accepted as a command exactly if it encodes a well-formed
   one that fits what the log says of the connection: so every connect from the parent and from
   an admitted origin is accepted while no other origin is set.
   */
  lemma AcceptedInRuns(
    w: World, inputs: seq<Input>, m: Message, start: StartOutcome, url: JsString, command: Command)
    ensures var (log, log') := (Run(w, inputs).log, Run(w, inputs + [Deliver(m, start, url)]).log);
            m.data == EncodeCommand(command) && CommandOk(command) && Fits(w, log, m, command) <==>
            log + [Accepted(command, m.origin, m.source)] <= log'
  {
    var c := Run(w, inputs);
    RunKeeps(w, inputs);
    FitsIsLetThrough(w, c, m, command);
    NextStep(w, inputs, Deliver(m, start, url));
    AcceptedExactly(w, c, m, start, url, command);
  }

  lemma NextStep(w: World, inputs: seq<Input>, input: Input)
    ensures Run(w, inputs + [input]) == Step(w, Run(w, inputs), input)
  {
    assert (inputs + [input])[..|inputs|] == inputs;
  }

  /** Events reach the parent exactly if the origin is not empty and `postMessage` takes it as a target. */
  predicate Reaches(w: World, origin: JsString) {
    origin != [] && (origin == Lit("*") || origin == Lit("/") || w.parseUrl(origin).Some?)
  }

  /** Whether a bridge offers a capability: as its options say, or, if they do not, once they name a parent. */
  predicate Offers(w: World, capability: Capability) {
    match w.options.capabilities
    case Some(given) => capability in given
    case None =>
      || (w.options.parentOrigin.Some? && w.options.parentOrigin.value != [])
      || w.options.allowedParentOrigins != []
  }

  /** The capabilities that a bridge reports. */
  predicate Reports(w: World, reported: seq<Capability>) {
    && (w.options.capabilities.Some? ==> reported == w.options.capabilities.value)
    && (w.options.capabilities.None? ==>
          reported == if Offers(w, Navigation) then [Navigation, Console] else [])
  }

  lemma CapabilitiesAre(w: World)
    ensures Reports(w, Capabilities(w))
    ensures Navigation in Capabilities(w) <==> Offers(w, Navigation)
    ensures Console in Capabilities(w) <==> Offers(w, Console)
  {
  }

  // ---------------------------------------------------------------- selections

  /**
   The last accepted command before a selection is a start of the picker, the selection carries
   its nonce and request, and no other selection came in between.
   */
  lemma SelectionFollowsItsStart(w: World, inputs: seq<Input>, i: nat) returns (j: nat)
    requires i < |Run(w, inputs).log| && IsSelectionItem(Run(w, inputs).log[i])
    ensures var log := Run(w, inputs).log;
            && LastBefore(log, j, i, IsAccepted)
            && log[j].command ==
               Command(StartPicker, log[i].event.nonce, log[i].event.requestId)
            && forall k :: j < k < i ==> !IsSelectionItem(log[k])
  {
    var log := Run(w, inputs).log;
    RunItemIsOk(w, inputs, i);
    j := ArmedSince(log[..i], log[i].event.nonce, log[i].event.requestId);
    assert forall k :: 0 <= k < i ==> log[..i][k] == log[k];
  }

  lemma ArmedSince(log: seq<Item>, nonce: JsString, requestId: JsString) returns (j: nat)
    requires Armed(log, nonce, requestId)
    ensures LastBefore(log, j, |log|, IsAccepted)
    ensures log[j].command == Command(StartPicker, nonce, requestId)
    ensures forall k :: j < k < |log| ==> !IsSelectionItem(log[k])
  {
    j := LastHasPosition(log, IsMark);
    assert forall k :: j < k < |log| ==> !IsMark(log[k]);
  }

  lemma {:induction false} StartsCover(w: World, log: seq<Item>)
    requires LogOk(w, log)
    ensures Count(log, IsSelectionItem) +
            (if Last(log, IsMark).Some? && IsStart(Last(log, IsMark).value) then 1 else 0)
            <= Count(log, IsStart)
  {
    if log != [] { StartsCover(w, log[..|log| - 1]); }
  }

  /** Each selection uses up one start; one more start is unused while the picker is armed. */
  lemma SelectionsAreStarted(w: World, inputs: seq<Input>)
    ensures var c := Run(w, inputs);
            Count(c.log, IsSelectionItem) + (if c.state.picking then 1 else 0) <= Count(c.log, IsStart)
  {
    RunKeeps(w, inputs);
    StartsCover(w, Run(w, inputs).log);
  }

  // ---------------------------------------------------------------- what the parent accepts

  /** Where the parts of an event come from. */
  ghost predicate Produced(w: World, inputs: seq<Input>, body: EventBody) {
    match body
    case Ready(cs) => cs == Capabilities(w)
    case Selection(selection) =>
      exists chain: Chain :: Click(Some(chain), true) in inputs && PickedFrom(w, chain, selection)
    case Navigated(url) =>
      Navigate(url) in inputs || exists m, start :: Deliver(m, start, url) in inputs
    case ConsoleEntry(level, message) =>
      exists previews :: ConsoleCall(level, previews) in inputs && message == BoundedMessage(previews, w.redact)
    case Failed(_, message) => message == NO_DOCUMENT || message == START_FAILED || message == SELECTION_FAILED
  }

  predicate PickedFrom(w: World, chain: Chain, selection: JsValue) {
    selection == SelectionFor(w.nativeEscape, chain) && !RoleIsFunction(chain[0])
  }

  ghost predicate AllProduced(w: World, inputs: seq<Input>, log: seq<Item>) {
    forall i :: 0 <= i < |log| && log[i].Posted? ==> Produced(w, inputs, log[i].event.body)
  }

  lemma RecordCloneable(
    tag: JsString, role: JsValue, name: JsValue, text: JsValue, attributes: JsValue, locator: JsString, bounds: JsValue)
    requires Cloneable(name) && Cloneable(text) && Cloneable(attributes) && Cloneable(bounds)
    ensures Cloneable(SelectionRecord(tag, role, name, text, attributes, locator, bounds)) <==> Cloneable(role)
  {
    var record := SelectionRecord(tag, role, name, text, attributes, locator, bounds);
    assert "role" in record.fields && record.fields["role"] == role;
  }

  /** Only the role of a selection can be a function. */
  lemma SelectionCloneable(native: Option<JsString -> JsString>, chain: Chain)
    ensures Cloneable(SelectionFor(native, chain)) <==> !RoleIsFunction(chain[0])
  {
    var e := chain[0];
    AttributesCloneable(e, |ALLOWED_ATTRIBUTES|);
    RoleCloneable(e);
    BoundsCloneable(e.bounds);
    RecordCloneable(
      e.tag, RoleFor(e), OrNull(AccessibleNameFor(e)),
      OrNull(if e.form.NotForm? then BoundedText(e.text, MAX_TEXT_LENGTH) else None),
      Obj(true, AllowedAttributes(e)), LocatorText(native, chain), BoundsFor(e.bounds));
  }

  lemma RoleCloneable(e: Element)
    ensures Cloneable(RoleFor(e)) <==> !RoleIsFunction(e)
  {
    NotInherited();
  }

  lemma BoundsCloneable(r: Rect)
    ensures Cloneable(BoundsFor(r))
  {
  }

  lemma {:induction false} AttributesCloneable(e: Element, n: nat)
    requires n <= |ALLOWED_ATTRIBUTES|
    ensures Cloneable(Obj(true, AttributesUpTo(e, n)))
  {
    if n > 0 { AttributesCloneable(e, n - 1); }
  }

  lemma ProducedWithMore(w: World, inputs: seq<Input>, input: Input, body: EventBody)
    requires Produced(w, inputs, body)
    ensures Produced(w, inputs + [input], body)
  {
    match body
    case Selection(selection) =>
      var chain: Chain :| Click(Some(chain), true) in inputs && PickedFrom(w, chain, selection);
      assert Click(Some(chain), true) in inputs + [input];
    case Navigated(url) =>
      if m, start :| Deliver(m, start, url) in inputs { assert Deliver(m, start, url) in inputs + [input]; }
    case ConsoleEntry(level, message) =>
      var previews :| ConsoleCall(level, previews) in inputs && message == BoundedMessage(previews, w.redact);
      assert ConsoleCall(level, previews) in inputs + [input];
    case _ =>
  }

  lemma ProducedMore(w: World, inputs: seq<Input>, input: Input, log: seq<Item>)
    requires AllProduced(w, inputs, log)
    ensures AllProduced(w, inputs + [input], log)
  {
    forall i | 0 <= i < |log| && log[i].Posted? ensures Produced(w, inputs + [input], log[i].event.body) {
      ProducedWithMore(w, inputs, input, log[i].event.body);
    }
  }

  lemma PostProduced(w: World, inputs: seq<Input>, c: Config, body: EventBody, nonce: JsString, requestId: JsString)
    requires AllProduced(w, inputs, c.log) && Produced(w, inputs, body)
    ensures AllProduced(w, inputs, Post(w, c, Event(nonce, requestId, body)).log)
    ensures AllProduced(w, inputs, PostActive(w, c, body).log)
  {
  }

  lemma ConnectProduced(w: World, inputs: seq<Input>, c: Config, command: Command, m: Message, url: JsString)
    requires AllProduced(w, inputs, c.log) && Produced(w, inputs, Navigated(url))
    ensures AllProduced(w, inputs, AcceptConnect(w, c, command, m, url).log)
  {
    var stopped := Accept(StopPicking(c), command, m);
    var connected := stopped.(state := stopped.state.(nonce := Some(command.nonce), origin := Some(m.origin)));
    var ready := Ready(Capabilities(w));
    PostProduced(w, inputs, connected, ready, command.nonce, command.requestId);
    var posted := Post(w, connected, Event(command.nonce, command.requestId, ready));
    PostProduced(w, inputs, posted, Navigated(url), [], []);
  }

  lemma OtherProduced(w: World, inputs: seq<Input>, c: Config, command: Command, m: Message, start: StartOutcome)
    requires AllProduced(w, inputs, c.log)
    ensures AllProduced(w, inputs, AcceptOther(w, c, command, m, start).log)
  {
    var accepted := Accept(c, command, m);
    PostProduced(w, inputs, accepted, Failed(PickerFailed, NO_DOCUMENT), [], []);
    PostProduced(w, inputs, StopPicking(accepted), Failed(PickerFailed, START_FAILED), [], []);
  }

  lemma ReceiveProduced(w: World, inputs: seq<Input>, c: Config, m: Message, start: StartOutcome, url: JsString)
    requires AllProduced(w, inputs, c.log) && Deliver(m, start, url) in inputs
    ensures AllProduced(w, inputs, Receive(w, c, m, start, url).log)
  {
    match ParseCommand(m.data)
    case None =>
    case Some(command) =>
      ConnectProduced(w, inputs, c, command, m, url);
      OtherProduced(w, inputs, c, command, m, start);
  }

  lemma ClickProduced(w: World, inputs: seq<Input>, c: Config, chain: Chain, collects: bool)
    requires AllProduced(w, inputs, c.log) && Click(Some(chain), collects) in inputs
    ensures AllProduced(w, inputs, ClickElement(w, c, chain, collects).log)
  {
    var stopped, selection := StopPicking(c), SelectionFor(w.nativeEscape, chain);
    SelectionCloneable(w.nativeEscape, chain);
    PostProduced(w, inputs, stopped, Failed(PickerFailed, SELECTION_FAILED), [], []);
    if collects && !RoleIsFunction(chain[0]) {
      assert PickedFrom(w, chain, selection);
      PostProduced(w, inputs, stopped, Selection(selection), [], []);
    }
  }

  lemma StepProduces(w: World, inputs: seq<Input>, c: Config, input: Input)
    requires AllProduced(w, inputs, c.log) && input in inputs
    ensures AllProduced(w, inputs, Step(w, c, input).log)
  {
    match input
    case Deliver(m, start, url) => ReceiveProduced(w, inputs, c, m, start, url);
    case Navigate(url) => PostProduced(w, inputs, c, Navigated(url), [], []);
    case ConsoleCall(level, previews) =>
      PostProduced(w, inputs, c, ConsoleEntry(level, BoundedMessage(previews, w.redact)), [], []);
    case Click(element, collects) =>
      if element.Some? { ClickProduced(w, inputs, c, element.value, collects); }
    case _ =>
  }

  lemma {:induction false} RunProduces(w: World, inputs: seq<Input>)
    ensures AllProduced(w, inputs, Run(w, inputs).log)
  {
    if inputs != [] {
      var init, input := inputs[..|inputs| - 1], inputs[|inputs| - 1];
      RunProduces(w, init);
      ProducedMore(w, init, input, Run(w, init).log);
      assert inputs == init + [input];
      StepProduces(w, inputs, Run(w, init), input);
    }
  }

  lemma ErrorTextIsBounded(code: string, message: string)
    requires NoControl(Lit(code)) && NoControl(Lit(message)) && |code| + |message| + 2 <= MAX_TEXT_LENGTH
    ensures BoundedString(ErrorText(code, message), MAX_TEXT_LENGTH)
  {
    LitIsClean(": ");
  }

  lemma NoDocumentIsBounded()
    ensures BoundedString(NO_DOCUMENT, MAX_TEXT_LENGTH)
  {
    LitIsClean("picker_unavailable");
    LitIsClean("The picker requires a browser document.");
    ErrorTextIsBounded("picker_unavailable", "The picker requires a browser document.");
  }

  lemma StartFailedIsBounded()
    ensures BoundedString(START_FAILED, MAX_TEXT_LENGTH)
  {
    LitIsClean("picker_start_failed");
    LitIsClean("Unable to start the element picker.");
    ErrorTextIsBounded("picker_start_failed", "Unable to start the element picker.");
  }

  lemma SelectionFailedIsBounded()
    ensures BoundedString(SELECTION_FAILED, MAX_TEXT_LENGTH)
  {
    LitIsClean("selection_failed");
    LitIsClean("Unable to collect a safe element selection.");
    ErrorTextIsBounded("selection_failed", "Unable to collect a safe element selection.");
  }

  /**
   Whatever the page and the parent do, the parent's parser accepts every console and error
   event; a ready event exactly if at most two capabilities are reported, as it is with the
   derived ones; a navigation exactly if its address is within bounds; and a selection exactly if
   the tag name of the clicked element is well-formed and its locator shows no control character.
   */
  lemma EventsAreAccepted(w: World, inputs: seq<Input>, i: nat)
    requires i < |Run(w, inputs).log| && Run(w, inputs).log[i].Posted?
    requires forall s :: NoControl(s) ==> NoControl(w.redact(s))
    ensures var e := Run(w, inputs).log[i].event;
            match e.body
            case ConsoleEntry(_, _) => AcceptsEvent(EncodeEvent(e))
            case Failed(_, _) => AcceptsEvent(EncodeEvent(e))
            case Ready(_) =>
              && (AcceptsEvent(EncodeEvent(e)) <==> |Capabilities(w)| <= 2)
              && (w.options.capabilities.None? ==> AcceptsEvent(EncodeEvent(e)))
            case Navigated(url) => AcceptsEvent(EncodeEvent(e)) <==> BoundedString(url, MAX_URL_LENGTH)
            case Selection(selection) =>
              exists chain: Chain ::
                && Click(Some(chain), true) in inputs
                && selection == SelectionFor(w.nativeEscape, chain)
                && (AcceptsEvent(EncodeEvent(e)) <==>
                    IsTag(chain[0].tag) && NoControl(LocatorText(w.nativeEscape, chain)))
  {
    var e := Run(w, inputs).log[i].event;
    RunItemIsOk(w, inputs, i);
    RunProduces(w, inputs);
    assert Produced(w, inputs, e.body);
    AcceptsExactly(e);
    match e.body
    case ConsoleEntry(_, message) =>
      var previews :| message == BoundedMessage(previews, w.redact);
      ConsoleMessageAccepted(previews, w.redact);
    case Failed(_, _) =>
      NoDocumentIsBounded();
      StartFailedIsBounded();
      SelectionFailedIsBounded();
    case Selection(selection) =>
      var chain: Chain :| Click(Some(chain), true) in inputs && PickedFrom(w, chain, selection);
      SelectionAccepted(w.nativeEscape, chain);
    case _ =>
  }
}
