/**
 Observers that replace methods of a host object (`console`, `history`) by wrappers and put the
 originals back.  Bridges may come and go in any order, and the page may wrap methods as well.
 */
module Observers {
  const CONSOLE_METHODS: seq<string> := ["debug", "log", "info", "warn", "error"]
  const HISTORY_METHODS: seq<string> := ["pushState", "replaceState"]

  /** A function value: the host's own method, the wrapper of an observer, or one made by the page. */
  datatype Fn =
    | Native
    | Wrapper(layer: nat, name: string, original: Fn)
    | PageWrapper(original: Fn)

  datatype Call = NativeCall | Entry(layer: nat) | PageCall

  /** What one call of a function runs, in order; a wrapper runs its original first. */
  function Calls(f: Fn): seq<Call> {
    match f
    case Native => [NativeCall]
    case Wrapper(layer, _, original) => Calls(original) + [Entry(layer)]
    case PageWrapper(original) => Calls(original) + [PageCall]
  }

  type Slots = map<string, Fn>

  predicate Full(slots: Slots, methods: seq<string>) {
    forall name :: name in methods ==> name in slots
  }

  predicate Distinct(methods: seq<string>) {
    forall i, j :: 0 <= i < j < |methods| ==> methods[i] != methods[j]
  }

  /** Every observed method is replaced by a wrapper around what was there. */
  function Wrapped(slots: Slots, methods: seq<string>, layer: nat): Slots {
    map name | name in slots :: if name in methods then Wrapper(layer, name, slots[name]) else slots[name]
  }

  /** What an observer keeps. */
  function Restricted(slots: Slots, methods: seq<string>): Slots
    requires Full(slots, methods)
  {
    map name | name in methods :: slots[name]
  }

  /** Every method that still is the wrapper of this layer gets back what was there before. */
  function Unwrapped(slots: Slots, methods: seq<string>, layer: nat, originals: Slots): Slots
    requires Full(originals, methods)
  {
    map name | name in slots ::
      if name in methods && slots[name] == Wrapper(layer, name, originals[name]) then originals[name] else slots[name]
  }

  /** One method gets back what was there before if it still is the wrapper of this layer. */
  function UnwrappedOne(slots: Slots, name: string, layer: nat, originals: Slots): Slots
    requires name in slots && name in originals
  {
    if slots[name] == Wrapper(layer, name, originals[name]) then slots[name := originals[name]] else slots
  }

  lemma UnwrapOneMore(slots: Slots, methods: seq<string>, i: nat, layer: nat, originals: Slots)
    requires Distinct(methods) && Full(slots, methods) && Full(originals, methods) && i < |methods|
    requires Full(originals, methods[..i]) && Full(originals, methods[..i + 1])
    ensures var before := Unwrapped(slots, methods[..i], layer, originals);
            && Full(before, methods)
            && UnwrappedOne(before, methods[i], layer, originals) ==
               Unwrapped(slots, methods[..i + 1], layer, originals)
  {
    assert methods[i] !in methods[..i];
    assert methods[..i + 1] == methods[..i] + [methods[i]];
  }

  // ---------------------------------------------------------------- the host object

  /** The host object's methods, and the closures that observers keep. */
  class Host {
    const methods: seq<string>
    var slots: Slots
    var originals: seq<Slots>

    ghost predicate Valid()
      reads this
    {
      && Distinct(methods) && Full(slots, methods)
      && forall k :: 0 <= k < |originals| ==> Full(originals[k], methods)
    }

    constructor (methods: seq<string>, slots: Slots)
      requires Distinct(methods) && Full(slots, methods)
      ensures Valid() && this.methods == methods && this.slots == slots && originals == []
    {
      this.methods, this.slots, originals := methods, slots, [];
    }

    /** `observeConsole`, `observeNavigation`: replace the methods one after the other. */
    method Observe() returns (layer: nat)
      requires Valid()
      modifies this
      ensures Valid() && layer == |old(originals)|
      ensures slots == Wrapped(old(slots), methods, layer)
      ensures originals == old(originals) + [Restricted(old(slots), methods)]
    {
      layer := |originals|;
      var saved := slots;
      var kept: Slots := map[];
      for i := 0 to |methods|
        invariant Full(slots, methods) && originals == old(originals)
        invariant slots == Wrapped(saved, methods[..i], layer)
        invariant Full(saved, methods[..i]) && kept == Restricted(saved, methods[..i])
      {
        var name := methods[i];
        assert name !in methods[..i];
        kept := kept[name := slots[name]];
        slots := slots[name := Wrapper(layer, name, slots[name])];
        assert methods[..i + 1] == methods[..i] + [name];
      }
      assert methods[..|methods|] == methods;
      originals := originals + [kept];
    }

    method RestoreMethod(name: string, layer: nat)
      requires layer < |originals| && name in slots && name in originals[layer]
      modifies this`slots
      ensures slots == UnwrappedOne(old(slots), name, layer, originals[layer])
    {
      if slots[name] == Wrapper(layer, name, originals[layer][name]) {
        slots := slots[name := originals[layer][name]];
      }
    }

    /** The function that an observer returns; it may be called at any time and more than once. */
    method Restore(layer: nat)
      requires Valid() && layer < |originals|
      modifies this`slots
      ensures Valid()
      ensures slots == Unwrapped(old(slots), methods, layer, originals[layer])
    {
      for i := 0 to |methods|
        invariant Full(slots, methods)
        invariant slots == Unwrapped(old(slots), methods[..i], layer, originals[layer])
      {
        UnwrapOneMore(old(slots), methods, i, layer, originals[layer]);
        RestoreMethod(methods[i], layer);
      }
      assert methods[..|methods|] == methods;
    }
  }

  // ---------------------------------------------------------------- runs

  datatype State = State(slots: Slots, originals: seq<Slots>)

  datatype Op = Install | Uninstall(layer: nat) | PageWraps(name: string)

  predicate Enabled(s: State, op: Op) {
    match op
    case Install => true
    case Uninstall(layer) => layer < |s.originals|
    case PageWraps(name) => name in s.slots
  }

  predicate StateOk(s: State, methods: seq<string>) {
    Full(s.slots, methods) && forall k :: 0 <= k < |s.originals| ==> Full(s.originals[k], methods)
  }

  function Step(s: State, methods: seq<string>, op: Op): (s': State)
    requires StateOk(s, methods) && Enabled(s, op)
    ensures StateOk(s', methods)
  {
    match op
    case Install => State(Wrapped(s.slots, methods, |s.originals|), s.originals + [Restricted(s.slots, methods)])
    case Uninstall(layer) => s.(slots := Unwrapped(s.slots, methods, layer, s.originals[layer]))
    case PageWraps(name) => s.(slots := s.slots[name := PageWrapper(s.slots[name])])
  }

  /** The untouched host. */
  function Untouched(methods: seq<string>): (s: State)
    ensures StateOk(s, methods)
  {
    State(map name | name in methods :: Native, [])
  }

  /** A sequence of states, each a step from the one before. */
  ghost predicate Run(methods: seq<string>, ops: seq<Op>, ss: seq<State>) {
    && |ss| == |ops| + 1
    && ss[0] == Untouched(methods)
    && forall i :: 0 <= i < |ops| ==> Follows(methods, ss[i], ops[i], ss[i + 1])
  }

  ghost predicate Follows(methods: seq<string>, s: State, op: Op, s': State) {
    StateOk(s, methods) && Enabled(s, op) && s' == Step(s, methods, op)
  }

  predicate Has(f: Fn, layer: nat) {
    match f
    case Native => false
    case Wrapper(k, _, original) => k == layer || Has(original, layer)
    case PageWrapper(original) => Has(original, layer)
  }

  /**
   Every wrapper in a function was made by the observer of its layer around what it keeps, and
   layers decrease inward from a bound, so that none occurs twice.
   */
  predicate Layered(originals: seq<Slots>, name: string, f: Fn, bound: nat) {
    match f
    case Native => true
    case Wrapper(k, n, original) =>
      && k < bound && k < |originals| && n == name
      && name in originals[k] && original == originals[k][name]
      && Layered(originals, name, original, k)
    case PageWrapper(original) => Layered(originals, name, original, bound)
  }

  ghost predicate Inv(s: State, methods: seq<string>) {
    && StateOk(s, methods)
    && forall name :: name in methods ==> Layered(s.originals, name, s.slots[name], |s.originals|)
  }

  function CountOf(calls: seq<Call>, call: Call): nat {
    if calls == [] then 0
    else CountOf(calls[..|calls| - 1], call) + (if calls[|calls| - 1] == call then 1 else 0)
  }

  lemma CountMore(calls: seq<Call>, last: Call, call: Call)
    ensures CountOf(calls + [last], call) == CountOf(calls, call) + (if last == call then 1 else 0)
  {
    assert (calls + [last])[..|calls|] == calls;
  }

  /** A layered function runs the native method once, first, and each of its layers once. */
  lemma {:induction false} CallsOnce(originals: seq<Slots>, name: string, f: Fn, bound: nat, layer: nat)
    requires Layered(originals, name, f, bound)
    ensures |Calls(f)| > 0 && Calls(f)[0] == NativeCall && CountOf(Calls(f), NativeCall) == 1
    ensures CountOf(Calls(f), Entry(layer)) == if Has(f, layer) then 1 else 0
    ensures Has(f, layer) ==> layer < bound
    decreases f
  {
    match f
    case Native => CountMore([], NativeCall, NativeCall); CountMore([], NativeCall, Entry(layer));
    case Wrapper(k, _, original) =>
      CallsOnce(originals, name, original, k, layer);
      CountMore(Calls(original), Entry(k), NativeCall);
      CountMore(Calls(original), Entry(k), Entry(layer));
    case PageWrapper(original) =>
      CallsOnce(originals, name, original, bound, layer);
      CountMore(Calls(original), PageCall, NativeCall);
      CountMore(Calls(original), PageCall, Entry(layer));
  }

  lemma {:induction false} LayeredMore(
    originals: seq<Slots>, more: seq<Slots>, name: string, f: Fn, bound: nat, higher: nat)
    requires Layered(originals, name, f, bound) && originals <= more && bound <= higher
    ensures Layered(more, name, f, higher)
    decreases f
  {
    match f
    case Native =>
    case Wrapper(k, _, original) => LayeredMore(originals, more, name, original, k, k);
    case PageWrapper(original) => LayeredMore(originals, more, name, original, bound, higher);
  }

  lemma StepKeeps(s: State, methods: seq<string>, op: Op)
    requires Inv(s, methods) && Enabled(s, op)
    ensures Inv(Step(s, methods, op), methods)
  {
    var s' := Step(s, methods, op);
    forall name | name in methods ensures Layered(s'.originals, name, s'.slots[name], |s'.originals|) {
      var f := s.slots[name];
      LayeredMore(s.originals, s'.originals, name, f, |s.originals|, |s'.originals|);
      if op.Install? {
        LayeredMore(s.originals, s'.originals, name, f, |s.originals|, |s.originals|);
      }
      if f.Wrapper? {
        LayeredMore(s.originals, s.originals, name, f.original, f.layer, |s.originals|);
      }
    }
  }

  lemma {:induction false} RunKeeps(methods: seq<string>, ops: seq<Op>, ss: seq<State>, i: nat)
    requires Run(methods, ops, ss) && i <= |ops|
    ensures Inv(ss[i], methods)
  {
    if i > 0 {
      RunKeeps(methods, ops, ss, i - 1);
      assert Follows(methods, ss[i - 1], ops[i - 1], ss[i]);
      StepKeeps(ss[i - 1], methods, ops[i - 1]);
    }
  }

  /**
   After any sequence of installs, uninstalls and page wrappers, a call runs the native method
   exactly once, and the entry of a layer exactly once if the layer is still there and else not at all.
   */
  lemma EveryCallOnce(methods: seq<string>, ops: seq<Op>, ss: seq<State>, i: nat, name: string, layer: nat)
    requires Run(methods, ops, ss) && i <= |ops| && name in methods
    ensures Inv(ss[i], methods)
    ensures var f := ss[i].slots[name];
            && |Calls(f)| > 0 && Calls(f)[0] == NativeCall && CountOf(Calls(f), NativeCall) == 1
            && CountOf(Calls(f), Entry(layer)) == if Has(f, layer) then 1 else 0
  {
    RunKeeps(methods, ops, ss, i);
    CallsOnce(ss[i].originals, name, ss[i].slots[name], |ss[i].originals|, layer);
  }

  /** An uninstall takes its layer off a method exactly if it is the outermost there, and touches no other layer. */
  lemma UninstallTakesOffTheTop(s: State, methods: seq<string>, layer: nat, name: string, other: nat)
    requires Inv(s, methods) && layer < |s.originals| && name in methods
    ensures var f, f' := s.slots[name], Step(s, methods, Uninstall(layer)).slots[name];
            && (Has(f', layer) <==> Has(f, layer) && !(f.Wrapper? && f.layer == layer))
            && (other != layer ==> (Has(f', other) <==> Has(f, other)))
  {
    var f := s.slots[name];
    if f.Wrapper? {
      CallsOnce(s.originals, name, f.original, f.layer, f.layer);
    }
  }

  /** An observer that was not uninstalled gets every later call once, whatever was installed or uninstalled since. */
  lemma {:induction false} LiveLayerIsCalled(
    methods: seq<string>, ops: seq<Op>, ss: seq<State>, i: nat, m: nat, name: string)
    requires Run(methods, ops, ss) && i < m <= |ops| && name in methods && ops[i] == Install
    requires Uninstall(|ss[i].originals|) !in ops[i..m]
    ensures Inv(ss[m], methods)
    ensures Has(ss[m].slots[name], |ss[i].originals|)
    ensures CountOf(Calls(ss[m].slots[name]), Entry(|ss[i].originals|)) == 1
    decreases m
  {
    var layer := |ss[i].originals|;
    RunKeeps(methods, ops, ss, m - 1);
    assert Follows(methods, ss[m - 1], ops[m - 1], ss[m]);
    if i < m - 1 {
      assert ops[i..m] == ops[i..m - 1] + [ops[m - 1]];
      LiveLayerIsCalled(methods, ops, ss, i, m - 1, name);
      if ops[m - 1].Uninstall? {
        UninstallTakesOffTheTop(ss[m - 1], methods, ops[m - 1].layer, name, layer);
      }
    }
    EveryCallOnce(methods, ops, ss, m, name, layer);
  }

  // ---------------------------------------------------------------- which layers remain

  /** A step uninstalls a layer while it is the outermost of a method. */
  predicate TakesOff(s: State, op: Op, name: string, layer: nat) {
    op == Uninstall(layer) && name in s.slots && s.slots[name].Wrapper? && s.slots[name].layer == layer
  }

  ghost predicate TakenOff(ops: seq<Op>, ss: seq<State>, m: nat, name: string, layer: nat)
    requires |ss| == |ops| + 1 && m <= |ops|
  {
    exists i :: 0 <= i < m && TakesOff(ss[i], ops[i], name, layer)
  }

  lemma StepHas(s: State, methods: seq<string>, op: Op, name: string, layer: nat)
    requires Inv(s, methods) && Enabled(s, op) && name in methods
    ensures var s' := Step(s, methods, op);
            Has(s'.slots[name], layer) <==>
            || (op.Install? && layer == |s.originals|)
            || (Has(s.slots[name], layer) && !TakesOff(s, op, name, layer))
  {
    match op
    case Install =>
    case Uninstall(k) => UninstallTakesOffTheTop(s, methods, k, name, layer);
    case PageWraps(_) =>
  }

  /**
   After any run a method has a layer exactly if the layer was installed and was never uninstalled
   while it was the outermost of the method.
   */
  lemma {:induction false} PresentExactly(
    methods: seq<string>, ops: seq<Op>, ss: seq<State>, m: nat, name: string, layer: nat)
    requires Run(methods, ops, ss) && m <= |ops| && name in methods
    ensures Inv(ss[m], methods)
    ensures Has(ss[m].slots[name], layer) <==> layer < |ss[m].originals| && !TakenOff(ops, ss, m, name, layer)
    decreases m
  {
    RunKeeps(methods, ops, ss, m);
    if m > 0 {
      var i := m - 1;
      PresentExactly(methods, ops, ss, i, name, layer);
      assert Follows(methods, ss[i], ops[i], ss[i + 1]);
      StepHas(ss[i], methods, ops[i], name, layer);
      NotYetTakenOff(methods, ops, ss, i, name, layer);
    }
  }

  /** Only an installed layer can be taken off. */
  lemma NotYetTakenOff(methods: seq<string>, ops: seq<Op>, ss: seq<State>, m: nat, name: string, layer: nat)
    requires Run(methods, ops, ss) && m < |ops| && name in methods
    ensures TakenOff(ops, ss, m + 1, name, layer) <==>
            TakenOff(ops, ss, m, name, layer) || TakesOff(ss[m], ops[m], name, layer)
    ensures TakenOff(ops, ss, m + 1, name, layer) ==> layer < |ss[m].originals|
  {
    if i :| 0 <= i < m + 1 && TakesOff(ss[i], ops[i], name, layer) {
      RunKeeps(methods, ops, ss, i);
      OriginalsGrow(methods, ops, ss, i, m);
    }
  }

  lemma {:induction false} OriginalsGrow(methods: seq<string>, ops: seq<Op>, ss: seq<State>, i: nat, m: nat)
    requires Run(methods, ops, ss) && i <= m <= |ops|
    ensures |ss[i].originals| <= |ss[m].originals|
    decreases m
  {
    if i < m {
      OriginalsGrow(methods, ops, ss, i, m - 1);
      assert Follows(methods, ss[m - 1], ops[m - 1], ss[m]);
    }
  }

  /** A layer that was taken off a method never returns to it. */
  lemma RemovedLayerStaysAway(
    methods: seq<string>, ops: seq<Op>, ss: seq<State>, i: nat, m: nat, name: string, layer: nat)
    requires Run(methods, ops, ss) && i < m <= |ops| && name in methods && TakesOff(ss[i], ops[i], name, layer)
    ensures Inv(ss[m], methods)
    ensures !Has(ss[m].slots[name], layer) && CountOf(Calls(ss[m].slots[name]), Entry(layer)) == 0
  {
    PresentExactly(methods, ops, ss, m, name, layer);
    EveryCallOnce(methods, ops, ss, m, name, layer);
  }

  // ---------------------------------------------------------------- the console and the history

  lemma MethodsAreDistinct()
    ensures Distinct(CONSOLE_METHODS) && Distinct(HISTORY_METHODS)
  {
    assert "debug"[0] == 'd' && "error"[0] == 'e' && "info"[0] == 'i' && "warn"[0] == 'w';
  }

  /** The page's `console`, or its `history`, before anything observes it. */
  method NewHost(console: bool) returns (host: Host)
    ensures host.Valid() && host.methods == (if console then CONSOLE_METHODS else HISTORY_METHODS)
    ensures host.slots == Untouched(host.methods).slots && host.originals == []
  {
    MethodsAreDistinct();
    var methods := if console then CONSOLE_METHODS else HISTORY_METHODS;
    host := new Host(methods, Untouched(methods).slots);
  }

  /** What a call runs for an observer: its entry once if it was installed and never taken off, else nothing. */
  function Expected(ops: seq<Op>, ss: seq<State>, m: nat, name: string, layer: nat): nat
    requires |ss| == |ops| + 1 && m <= |ops|
  {
    if layer < |ss[m].originals| && forall i :: 0 <= i < m ==> !TakesOff(ss[i], ops[i], name, layer) then 1 else 0
  }

  /** Each console call is logged once by the console itself and mirrored once by every observer that remains. */
  lemma ConsoleIsMirroredOnce(ops: seq<Op>, ss: seq<State>, m: nat, name: string, layer: nat)
    requires Run(CONSOLE_METHODS, ops, ss) && m <= |ops| && name in CONSOLE_METHODS
    ensures name in ss[m].slots
    ensures var calls := Calls(ss[m].slots[name]);
            CountOf(calls, NativeCall) == 1 && CountOf(calls, Entry(layer)) == Expected(ops, ss, m, name, layer)
  {
    EveryCallOnce(CONSOLE_METHODS, ops, ss, m, name, layer);
    PresentExactly(CONSOLE_METHODS, ops, ss, m, name, layer);
  }

  /** Each history change happens once and is published once by every observer that remains. */
  lemma NavigationIsPublishedOnce(ops: seq<Op>, ss: seq<State>, m: nat, name: string, layer: nat)
    requires Run(HISTORY_METHODS, ops, ss) && m <= |ops| && name in HISTORY_METHODS
    ensures name in ss[m].slots
    ensures var calls := Calls(ss[m].slots[name]);
            CountOf(calls, NativeCall) == 1 && CountOf(calls, Entry(layer)) == Expected(ops, ss, m, name, layer)
  {
    EveryCallOnce(HISTORY_METHODS, ops, ss, m, name, layer);
    PresentExactly(HISTORY_METHODS, ops, ss, m, name, layer);
  }

  // ---------------------------------------------------------------- nesting

  /** Observers that are uninstalled in the opposite order: one around `body`, then `rest`. */
  datatype Nest = Done | Around(body: Nest, rest: Nest)

  lemma UninstallUndoesInstall(slots: Slots, methods: seq<string>, layer: nat)
    requires Full(slots, methods)
    ensures Unwrapped(Wrapped(slots, methods, layer), methods, layer, Restricted(slots, methods)) == slots
  {
  }

  /** Properly nested observers leave every method as it was. */
  ghost function Nested(s: State, methods: seq<string>, p: Nest): (s': State)
    requires StateOk(s, methods)
    ensures StateOk(s', methods) && s'.slots == s.slots && s.originals <= s'.originals
    decreases p
  {
    match p
    case Done => s
    case Around(body, rest) =>
      var inside := Nested(Step(s, methods, Install), methods, body);
      UninstallUndoesInstall(s.slots, methods, |s.originals|);
      Nested(Step(inside, methods, Uninstall(|s.originals|)), methods, rest)
  }
}
