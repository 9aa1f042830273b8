/** What the next occurrence does in any run, told on the log so far and on whether the picker is armed. */
module BridgeEffects {
  import opened Prelude
  import opened JsValues
  import opened Protocol
  import opened Selections
  import opened SelectionFields
  import opened Bridge
  import opened BridgeRuns
  import opened BridgeTheorems

  // ---------------------------------------------------------------- sending

  /**
   An event that is sent goes to the origin of the last connect with its nonce and the request of
   the last command; nothing is sent without a connect, after destroy, or to an origin that
   `postMessage` does not take.
   */
  function Sent(w: World, log: seq<Item>, body: EventBody): seq<Item> {
    match (Last(log, IsConnect), Last(log, IsAccepted))
    case (Some(Accepted(connect, origin, _)), Some(Accepted(command, _, _))) =>
      if Destroyed !in log && Reaches(w, origin)
      then [Posted(Event(connect.nonce, command.requestId, body), origin)]
      else []
    case _ => []
  }

  lemma PostActiveSends(w: World, c: Config, body: EventBody)
    requires Inv(w, c)
    ensures PostActive(w, c, body) == c.(log := c.log + Sent(w, c.log, body))
  {
    LastIs(c.log, IsConnect);
    LastIs(c.log, IsAccepted);
    if !Connected(c.state) { assert c.log + [] == c.log; }
  }

  /** In every run a navigation is sent exactly if the bridge offers it. */
  lemma NavigationIsSent(w: World, inputs: seq<Input>, url: JsString)
    ensures var (c, c') := (Run(w, inputs), Run(w, inputs + [Navigate(url)]));
            && c'.state == c.state
            && c'.log == c.log + if Offers(w, Navigation) then Sent(w, c.log, Navigated(url)) else []
  {
    var c := Run(w, inputs);
    RunKeeps(w, inputs);
    NextStep(w, inputs, Navigate(url));
    CapabilitiesAre(w);
    PostActiveSends(w, c, Navigated(url));
  }

  /** In every run a console call is sent, with its level and what it says, exactly if the bridge offers it. */
  lemma ConsoleIsSent(w: World, inputs: seq<Input>, level: ConsoleLevel, previews: seq<JsString>)
    returns (message: JsString)
    ensures Says(previews, w.redact, message)
    ensures var (c, c') := (Run(w, inputs), Run(w, inputs + [ConsoleCall(level, previews)]));
            && c'.state == c.state
            && c'.log == c.log + if Offers(w, Console) then Sent(w, c.log, ConsoleEntry(level, message)) else []
  {
    var c := Run(w, inputs);
    message := BoundedMessage(previews, w.redact);
    MessageSays(previews, w.redact);
    RunKeeps(w, inputs);
    NextStep(w, inputs, ConsoleCall(level, previews));
    CapabilitiesAre(w);
    PostActiveSends(w, c, ConsoleEntry(level, message));
  }

  // ---------------------------------------------------------------- commands

  predicate IsNext(w: World, log: seq<Item>, m: Message, command: Command) {
    m.data == EncodeCommand(command) && CommandOk(command) && Fits(w, log, m, command)
  }

  /** What the picker reports if it cannot start. */
  function StartError(start: StartOutcome): EventBody {
    match start
    case NoDocument =>
      Failed(PickerFailed, Lit("picker_unavailable") + Lit(": ") + Lit("The picker requires a browser document."))
    case _ =>
      Failed(PickerFailed, Lit("picker_start_failed") + Lit(": ") + Lit("Unable to start the element picker."))
  }

  lemma IsNextIsTrusted(w: World, c: Config, m: Message, command: Command)
    requires Inv(w, c) && IsNext(w, c.log, m, command)
    ensures ParseCommand(m.data) == Some(command) && Trusts(w, c.state, m, command)
  {
    ParseCommandExact(m.data, command);
    FitsIsLetThrough(w, c, m, command);
    TrustsExactly(w, c.state, m, command);
  }

  /**
   In every run an accepted connect takes over nonce, request and origin, disarms the picker, and
   is answered with the capabilities and, if navigation is one, the address of the page.
   */
  lemma ConnectIsAnswered(
    w: World, inputs: seq<Input>, m: Message, start: StartOutcome, url: JsString, command: Command)
    returns (reported: seq<Capability>)
    requires IsNext(w, Run(w, inputs).log, m, command) && command.kind == Connect
    ensures Reports(w, reported)
    ensures var (c, c') := (Run(w, inputs), Run(w, inputs + [Deliver(m, start, url)]));
            var log := c.log + [Accepted(command, m.origin, m.source)];
            && c'.state == c.state.(nonce := Some(command.nonce), requestId := Some(command.requestId),
                                    origin := Some(m.origin), picking := false)
            && c'.log == log + Sent(w, log, Ready(reported)) +
                 if Offers(w, Navigation) then Sent(w, log, Navigated(url)) else []
  {
    var c := Run(w, inputs);
    reported := Capabilities(w);
    RunKeeps(w, inputs);
    IsNextIsTrusted(w, c, m, command);
    NextStep(w, inputs, Deliver(m, start, url));
    ConnectSends(w, c, m, url, command);
    CapabilitiesAre(w);
  }

  lemma ConnectSends(w: World, c: Config, m: Message, url: JsString, command: Command)
    requires Inv(w, c) && CommandOk(command) && command.kind == Connect && Trusts(w, c.state, m, command)
    ensures var c' := AcceptConnect(w, c, command, m, url);
            var log := c.log + [Accepted(command, m.origin, m.source)];
            && c'.state == c.state.(nonce := Some(command.nonce), requestId := Some(command.requestId),
                                    origin := Some(m.origin), picking := false)
            && c'.log == log + Sent(w, log, Ready(Capabilities(w))) +
                 if Navigation in Capabilities(w) then Sent(w, log, Navigated(url)) else []
  {
    var accepted := Accept(StopPicking(c), command, m);
    Appended(c.log, Accepted(command, m.origin, m.source));
    assert Last(accepted.log, IsConnect) == Some(Accepted(command, m.origin, m.source));
    assert Last(accepted.log, IsAccepted) == Some(Accepted(command, m.origin, m.source));
  }

  /** In every run an accepted start arms the picker if it can, and reports an error if it cannot. */
  lemma StartArms(
    w: World, inputs: seq<Input>, m: Message, start: StartOutcome, url: JsString, command: Command)
    requires IsNext(w, Run(w, inputs).log, m, command) && command.kind == StartPicker
    ensures var (c, c') := (Run(w, inputs), Run(w, inputs + [Deliver(m, start, url)]));
            var log := c.log + [Accepted(command, m.origin, m.source)];
            var armed := c.state.picking || start == Started;
            && c'.state == c.state.(requestId := Some(command.requestId), picking := armed)
            && c'.log == log + if armed then [] else Sent(w, log, StartError(start))
  {
    var c := Run(w, inputs);
    var accepted := Accept(c, command, m);
    RunKeeps(w, inputs);
    IsNextIsTrusted(w, c, m, command);
    NextStep(w, inputs, Deliver(m, start, url));
    AcceptKeeps(w, c, command, m);
    PostActiveSends(w, accepted, StartError(start));
    if !c.state.picking { assert StopPicking(accepted) == accepted; }
  }

  /**
   In every run any other accepted command disarms the picker and, if it asks to go back, to go
   forward or to reload and the bridge offers navigation, does that.
   */
  lemma OtherCommandsDisarm(
    w: World, inputs: seq<Input>, m: Message, start: StartOutcome, url: JsString, command: Command)
    requires IsNext(w, Run(w, inputs).log, m, command) && command.kind != Connect && command.kind != StartPicker
    ensures var (c, c') := (Run(w, inputs), Run(w, inputs + [Deliver(m, start, url)]));
            && c'.state == c.state.(requestId := Some(command.requestId), picking := false)
            && c'.log == c.log + [Accepted(command, m.origin, m.source)] +
                 if command.kind != StopPicker && Offers(w, Navigation) then [Travelled(command.kind)] else []
  {
    var c := Run(w, inputs);
    RunKeeps(w, inputs);
    IsNextIsTrusted(w, c, m, command);
    NextStep(w, inputs, Deliver(m, start, url));
    CapabilitiesAre(w);
  }

  // ---------------------------------------------------------------- clicks and keys

  /** What answers a click: the description of the element, or an error if it could not be made or copied. */
  ghost predicate AnswersClick(w: World, chain: Chain, collects: bool, body: EventBody) {
    if collects && ShownRole(chain[0]) != Func
    then body.Selection? && Describes(w.nativeEscape, chain, body.selection)
    else body == Failed(PickerFailed, Lit("selection_failed") + Lit(": ") +
                                      Lit("Unable to collect a safe element selection."))
  }

  function ClickAnswer(w: World, chain: Chain, collects: bool): EventBody {
    if !collects || RoleIsFunction(chain[0]) then Failed(PickerFailed, SELECTION_FAILED)
    else Selection(SelectionFor(w.nativeEscape, chain))
  }

  lemma AnswerIsPosted(w: World, c: Config, collected: Option<JsValue>, body: EventBody)
    requires Inv(w, c) && c.state.picking
    requires body == if collected.Some? && Cloneable(collected.value) then Selection(collected.value)
                     else Failed(PickerFailed, SELECTION_FAILED)
    ensures AnswerClick(w, c, collected) == PostActive(w, StopPicking(c), body)
  {
  }

  lemma ClickAnswerIs(w: World, chain: Chain, collects: bool)
    ensures AnswersClick(w, chain, collects, ClickAnswer(w, chain, collects))
  {
    RoleIsShown(chain[0]);
    SelectionDescribes(w.nativeEscape, chain);
  }

  /** The answer to a click, if there is one. */
  function IfArmed(w: World, c: Config, body: EventBody): seq<Item> {
    if c.state.picking then Sent(w, c.log, body) else []
  }

  lemma ClickDoes(w: World, c: Config, chain: Chain, collects: bool, body: EventBody)
    requires Inv(w, c) && body == ClickAnswer(w, chain, collects)
    ensures Step(w, c, Click(Some(chain), collects)) == Config(c.state.(picking := false), c.log + IfArmed(w, c, body))
  {
    if c.state.picking { ClickSends(w, c, chain, collects, body); } else { assert c.log + [] == c.log; }
  }

  lemma ClickSends(w: World, c: Config, chain: Chain, collects: bool, body: EventBody)
    requires Inv(w, c) && c.state.picking && body == ClickAnswer(w, chain, collects)
    ensures ClickElement(w, c, chain, collects) == Config(c.state.(picking := false), c.log + Sent(w, c.log, body))
  {
    SelectionCloneable(w.nativeEscape, chain);
    AnswerIsPosted(w, c, Collected(w, chain, collects), body);
    StopKeeps(w, c);
    PostActiveSends(w, StopPicking(c), body);
  }

  /**
   In every run a click on an element does nothing unless the picker is armed; if it is, the click
   disarms it and one event answers it.
   */
  lemma ClickIsAnswered(w: World, inputs: seq<Input>, chain: Chain, collects: bool) returns (body: EventBody)
    ensures AnswersClick(w, chain, collects, body)
    ensures var (c, c') := (Run(w, inputs), Run(w, inputs + [Click(Some(chain), collects)]));
            && c'.state == c.state.(picking := false)
            && c'.log == c.log + IfArmed(w, c, body)
  {
    body := ClickAnswer(w, chain, collects);
    ClickAnswerIs(w, chain, collects);
    RunKeeps(w, inputs);
    NextStep(w, inputs, Click(Some(chain), collects));
    ClickDoes(w, Run(w, inputs), chain, collects, body);
  }

  /** In every run a key disarms the picker exactly if it is Escape, and says nothing. */
  lemma EscapeDisarms(w: World, inputs: seq<Input>, escape: bool)
    ensures var (c, c') := (Run(w, inputs), Run(w, inputs + [KeyDown(escape)]));
            c'.state == c.state.(picking := c.state.picking && !escape) && c'.log == c.log
  {
    NextStep(w, inputs, KeyDown(escape));
  }

  /** Every selection in a run describes the element of a click. */
  lemma SelectionsDescribe(w: World, inputs: seq<Input>, i: nat) returns (chain: Chain)
    requires i < |Run(w, inputs).log| && IsSelectionItem(Run(w, inputs).log[i])
    ensures Click(Some(chain), true) in inputs
    ensures Describes(w.nativeEscape, chain, Run(w, inputs).log[i].event.body.selection)
  {
    RunProduces(w, inputs);
    var selection := Run(w, inputs).log[i].event.body.selection;
    assert Produced(w, inputs, Run(w, inputs).log[i].event.body);
    chain :| Click(Some(chain), true) in inputs && PickedFrom(w, chain, selection);
    SelectionDescribes(w.nativeEscape, chain);
  }
}
