/**
 Lexical normalization of target paths.

 `PathBuf::pop` removes a trailing `..` like any other component and fails only on the empty
 path and on the root, so each `..` that climbs above the start of the path alternately adds
 and removes one `..`.  What that does to a path's meaning is stated exactly below.
 */
module PathNormal {
  import opened Prelude
  import opened PathText

  // ---------------------------------------------------------------- on component lists

  /** One turn of the loop, on the components of the buffer. */
  function NormalizeStep(acc: seq<Component>, c: Component): seq<Component> {
    match c
    case CurDir => acc
    case ParentDir => if acc == [] || acc == [RootDir] then acc + [ParentDir] else acc[..|acc| - 1]
    case _ => acc + [c]
  }

  /** The loop, started with the components `acc` in the buffer. */
  function NormalizeFrom(acc: seq<Component>, cs: seq<Component>): seq<Component> {
    if cs == [] then acc else NormalizeStep(NormalizeFrom(acc, cs[..|cs| - 1]), cs[|cs| - 1])
  }

  function Normalize(cs: seq<Component>): seq<Component> {
    NormalizeFrom([], cs)
  }

  /** The lexical identity of a path: its normalized components, and their text. */
  function Identity(path: string): seq<Component> {
    Normalize(Components(path))
  }

  function IdentityText(path: string): string {
    Render(Identity(path))
  }

  // ---------------------------------------------------------------- normal forms

  function RootPart(rooted: bool): seq<Component> {
    if rooted then [RootDir] else []
  }

  function UpPart(up: bool): seq<Component> {
    if up then [ParentDir] else []
  }

  /** A normal form: maybe the root, maybe one `..`, then names. */
  function Form(rooted: bool, up: bool, names: seq<Component>): seq<Component> {
    RootPart(rooted) + UpPart(up) + names
  }

  predicate AllNormal(cs: seq<Component>) {
    forall i :: 0 <= i < |cs| ==> IsNormal(cs[i])
  }

  /**
   What a path means lexically, read from its start: how often it climbs above the start, and
   the names below that point.
   */
  datatype Walk = Walk(climbs: nat, names: seq<Component>)

  function WalkStep(w: Walk, c: Component): Walk {
    match c
    case ParentDir => if w.names == [] then w.(climbs := w.climbs + 1) else w.(names := w.names[..|w.names| - 1])
    case Normal(_) => w.(names := w.names + [c])
    case _ => w
  }

  function Meaning(cs: seq<Component>): Walk {
    if cs == [] then Walk(0, []) else WalkStep(Meaning(cs[..|cs| - 1]), cs[|cs| - 1])
  }

  predicate Rooted(cs: seq<Component>) {
    cs != [] && cs[0] == RootDir
  }

  lemma {:induction false} NormalizeMore(acc: seq<Component>, cs: seq<Component>, c: Component)
    ensures NormalizeFrom(acc, cs + [c]) == NormalizeStep(NormalizeFrom(acc, cs), c)
  {
    assert (cs + [c])[..|cs|] == cs;
  }

  lemma {:induction false} MeaningMore(cs: seq<Component>, c: Component)
    ensures Meaning(cs + [c]) == WalkStep(Meaning(cs), c)
  {
    assert (cs + [c])[..|cs|] == cs;
  }

  lemma FormMore(rooted: bool, up: bool, names: seq<Component>, c: Component)
    ensures Form(rooted, up, names + [c]) == Form(rooted, up, names) + [c]
  {
  }

  lemma FormDrop(rooted: bool, up: bool, init: seq<Component>, last: Component)
    requires last.Normal?
    ensures NormalizeStep(Form(rooted, up, init + [last]), ParentDir) == Form(rooted, up, init)
  {
    var front := Form(rooted, up, init);
    FormMore(rooted, up, init, last);
    assert (front + [last])[..|front|] == front;
  }

  lemma FormAdd(rooted: bool, up: bool, names: seq<Component>, c: Component)
    requires c.Normal?
    ensures NormalizeStep(Form(rooted, up, names), c) == Form(rooted, up, names + [c])
  {
    FormMore(rooted, up, names, c);
  }

  lemma ParityFlips(n: nat)
    ensures ((n + 1) % 2 == 1) == !(n % 2 == 1)
  {
  }

  lemma FormStep(rooted: bool, w: Walk, c: Component)
    requires AllNormal(w.names) && (IsPart(c) || c == CurDir)
    ensures var w' := WalkStep(w, c);
            && AllNormal(w'.names)
            && NormalizeStep(Form(rooted, w.climbs % 2 == 1, w.names), c) == Form(rooted, w'.climbs % 2 == 1, w'.names)
  {
    var up := w.climbs % 2 == 1;
    if c == ParentDir {
      if w.names != [] {
        var init, last := w.names[..|w.names| - 1], w.names[|w.names| - 1];
        assert init + [last] == w.names;
        FormDrop(rooted, up, init, last);
      } else {
        FormClimb(rooted, up);
        ParityFlips(w.climbs);
      }
    } else if c.Normal? {
      FormAdd(rooted, up, w.names, c);
    }
  }

  /** A climb above the start adds one `..` or removes it. */
  lemma FormClimb(rooted: bool, up: bool)
    ensures NormalizeStep(Form(rooted, up, []), ParentDir) == Form(rooted, !up, [])
  {
    assert Form(rooted, up, []) == RootPart(rooted) + UpPart(up);
    if up { assert (RootPart(rooted) + [ParentDir])[..|RootPart(rooted)|] == RootPart(rooted); }
  }

  /**
   What normalization does to any path: the root stays, the names are those the path means, and
   of the climbs above the start only the parity is left.
   */
  lemma {:induction false} NormalizeIsForm(cs: seq<Component>)
    requires WellFormed(cs)
    ensures AllNormal(Meaning(cs).names)
    ensures Normalize(cs) == Form(Rooted(cs), Meaning(cs).climbs % 2 == 1, Meaning(cs).names)
    decreases |cs|
  {
    if cs != [] {
      var init, c := cs[..|cs| - 1], cs[|cs| - 1];
      assert init + [c] == cs;
      NormalizeIsForm(init);
      NormalizeMore([], init, c);
      MeaningMore(init, c);
      if c == RootDir {
        assert init == [] && Form(true, false, []) == [RootDir];
      } else {
        FormStep(Rooted(init), Meaning(init), c);
      }
    }
  }

  lemma FormIsClean(rooted: bool, up: bool, names: seq<Component>)
    requires AllNormal(names)
    ensures Clean(Form(rooted, up, names))
    ensures ParentDir in Form(rooted, up, names) <==> up
    ensures CurDir !in Form(rooted, up, names)
  {
    if up { assert Form(rooted, up, names)[|RootPart(rooted)|] == ParentDir; }
  }

  lemma {:induction false} NormalizeIsClean(cs: seq<Component>)
    requires WellFormed(cs)
    ensures Clean(Normalize(cs)) && (Rooted(Normalize(cs)) <==> Rooted(cs))
  {
    NormalizeIsForm(cs);
    FormIsClean(Rooted(cs), Meaning(cs).climbs % 2 == 1, Meaning(cs).names);
  }

  // ---------------------------------------------------------------- the meaning of normal forms

  lemma {:induction false} MeaningOfForm(rooted: bool, up: bool, names: seq<Component>)
    requires AllNormal(names)
    ensures Meaning(Form(rooted, up, names)) == Walk(if up then 1 else 0, names)
    ensures Rooted(Form(rooted, up, names)) == rooted
    decreases |names|
  {
    if names == [] {
      MeaningOfStart(rooted, up);
      assert Form(rooted, up, names) == RootPart(rooted) + UpPart(up);
    } else {
      var init, c := names[..|names| - 1], names[|names| - 1];
      assert init + [c] == names;
      MeaningOfForm(rooted, up, init);
      FormMore(rooted, up, init, c);
      MeaningMore(Form(rooted, up, init), c);
    }
  }

  lemma {:induction false} MeaningOfStart(rooted: bool, up: bool)
    ensures Meaning(RootPart(rooted) + UpPart(up)) == Walk(if up then 1 else 0, [])
  {
    MeaningMore([], RootDir);
    assert [] + [RootDir] == [RootDir];
    if up { MeaningMore(RootPart(rooted), ParentDir); }
    else { assert RootPart(rooted) + UpPart(up) == RootPart(rooted); }
  }

  /** Normalization is idempotent on every path. */
  lemma {:induction false} NormalizeTwice(cs: seq<Component>)
    requires WellFormed(cs)
    ensures Normalize(Normalize(cs)) == Normalize(cs)
  {
    NormalizeIsForm(cs);
    var w := Meaning(cs);
    FormIsClean(Rooted(cs), w.climbs % 2 == 1, w.names);
    MeaningOfForm(Rooted(cs), w.climbs % 2 == 1, w.names);
    NormalizeIsForm(Normalize(cs));
  }

  // ---------------------------------------------------------------- where a path leads

  /** As `WalkStep`, but `..` at the root stays there, as POSIX has it. */
  function PlaceStep(rooted: bool, w: Walk, c: Component): Walk {
    if rooted && c == ParentDir && w.names == [] then w else WalkStep(w, c)
  }

  function PlaceFrom(rooted: bool, cs: seq<Component>): Walk {
    if cs == [] then Walk(0, []) else PlaceStep(rooted, PlaceFrom(rooted, cs[..|cs| - 1]), cs[|cs| - 1])
  }

  /** Where a path leads lexically: from the root or from its start, how far up, and then by which names. */
  function Place(cs: seq<Component>): (bool, Walk) {
    (Rooted(cs), PlaceFrom(Rooted(cs), cs))
  }

  lemma {:induction false} PlaceOfMeaning(rooted: bool, cs: seq<Component>)
    ensures PlaceFrom(rooted, cs) == if rooted then Walk(0, Meaning(cs).names) else Meaning(cs)
    decreases |cs|
  {
    if cs != [] { PlaceOfMeaning(rooted, cs[..|cs| - 1]); }
  }

  lemma SmallIffOwnParity(n: nat)
    ensures (if n % 2 == 1 then 1 else 0) == n <==> n <= 1
  {
  }

  /**
   Normalization keeps the names a path means.  It keeps the place a path leads to if and only if
   the path is absolute or climbs at most once above its start.
   */
  lemma {:induction false} NormalizeMeaning(cs: seq<Component>)
    requires WellFormed(cs)
    ensures Meaning(Normalize(cs)).names == Meaning(cs).names
    ensures Place(Normalize(cs)) == Place(cs) <==> Rooted(cs) || Meaning(cs).climbs <= 1
  {
    var w, rooted := Meaning(cs), Rooted(cs);
    NormalizeIsForm(cs);
    MeaningOfForm(rooted, w.climbs % 2 == 1, w.names);
    PlaceOfMeaning(rooted, cs);
    PlaceOfMeaning(rooted, Normalize(cs));
    SmallIffOwnParity(w.climbs);
  }

  lemma FormIsInjective(r1: bool, u1: bool, n1: seq<Component>, r2: bool, u2: bool, n2: seq<Component>)
    requires AllNormal(n1) && AllNormal(n2)
    ensures Form(r1, u1, n1) == Form(r2, u2, n2) <==> r1 == r2 && u1 == u2 && n1 == n2
  {
    MeaningOfForm(r1, u1, n1);
    MeaningOfForm(r2, u2, n2);
  }

  /**
   Two paths have the same identity exactly if both or neither are absolute, they mean the same
   names, and their climbs have the same parity.
   */
  lemma SameIdentityExactly(a: seq<Component>, b: seq<Component>)
    requires WellFormed(a) && WellFormed(b)
    ensures Normalize(a) == Normalize(b) <==>
            && Rooted(a) == Rooted(b) && Meaning(a).names == Meaning(b).names
            && Meaning(a).climbs % 2 == Meaning(b).climbs % 2
  {
    var v, w := Meaning(a), Meaning(b);
    NormalizeIsForm(a);
    NormalizeIsForm(b);
    FormIsInjective(Rooted(a), v.climbs % 2 == 1, v.names, Rooted(b), w.climbs % 2 == 1, w.names);
  }

  /** Absolute paths that lead to the same place have the same identity exactly if their climbs have the same parity. */
  lemma SamePlaceSameIdentity(a: seq<Component>, b: seq<Component>)
    requires WellFormed(a) && WellFormed(b) && Rooted(a) && Place(a) == Place(b)
    ensures Normalize(a) == Normalize(b) <==> Meaning(a).climbs % 2 == Meaning(b).climbs % 2
  {
    PlaceOfMeaning(true, a);
    PlaceOfMeaning(true, b);
    SameIdentityExactly(a, b);
  }

  lemma {:induction false} RootClimbs(name: Component)
    requires IsNormal(name)
    ensures var a, b := [RootDir] + [ParentDir] + [name], [RootDir] + [name];
            Place(a) == Place(b) && Normalize(a) != Normalize(b)
  {
    var up := [RootDir] + [ParentDir];
    assert [] + [RootDir] == [RootDir];
    MeaningMore([], RootDir);
    MeaningMore([RootDir], ParentDir);
    MeaningMore(up, name);
    MeaningMore([RootDir], name);
    PlaceOfMeaning(true, up + [name]);
    PlaceOfMeaning(true, [RootDir] + [name]);
    SameIdentityExactly(up + [name], [RootDir] + [name]);
  }

  /** Paths with these components lead to the same place and have different identities. */
  lemma ClimbSplits(up: string, plain: string, name: Component)
    requires IsNormal(name)
    ensures Components(up) == [RootDir] + [ParentDir] + [name] && Components(plain) == [RootDir] + [name] ==>
              Place(Components(up)) == Place(Components(plain)) && IdentityText(up) != IdentityText(plain)
  {
    RootClimbs(name);
    IdentityOfText(up);
    IdentityOfText(plain);
  }

  /** `/../a` and `/a` lead to the same place and have different identities. */
  lemma RootClimbSplitsIdentity()
    ensures Place(Components("/../a")) == Place(Components("/a"))
    ensures IdentityText("/../a") != IdentityText("/a")
  {
    ComponentsOfExamples();
    ClimbSplits("/../a", "/a", Normal("a"));
  }

  lemma ComponentsOfExamples()
    ensures Components("/../a") == [RootDir] + [ParentDir] + [Normal("a")]
    ensures Components("/a") == [RootDir] + [Normal("a")]
  {
    PartText(ParentDir);
    PartText(Normal("a"));
    assert "/a" == "/" + "a" && "/.." == "/" + ".." && "/../a" == "/.." + "/" + "a";
    ComponentsAfterRoot("a");
    ComponentsAfterRoot("..");
    ComponentsAfterSlash("/..", "a");
  }

  /** Normalization leaves no `.`, and leaves no `..` if and only if the number of climbs is even. */
  lemma {:induction false} NormalizeDots(cs: seq<Component>)
    requires WellFormed(cs)
    ensures ParentDir in Normalize(cs) <==> Meaning(cs).climbs % 2 == 1
    ensures CurDir !in Normalize(cs)
  {
    NormalizeIsForm(cs);
    var w := Meaning(cs);
    FormIsClean(Rooted(cs), w.climbs % 2 == 1, w.names);
  }

  lemma ComponentsOfTwoClimbs()
    ensures Components("../../a") == [ParentDir] + [ParentDir] + [Normal("a")]
  {
    ComponentsOfClimbs();
    PartText(Normal("a"));
    assert "../../a" == "../.." + "/" + "a";
    ComponentsAfterSlash("../..", "a");
  }

  lemma ComponentsOfClimbs()
    ensures Components("../..") == [ParentDir] + [ParentDir]
  {
    PartText(ParentDir);
    ComponentsOfOne(ParentDir);
    assert "../.." == ".." + "/" + "..";
    ComponentsAfterSlash("..", "..");
  }

  /** A path that climbs twice loses both climbs: `../../a` becomes `a`. */
  lemma ClimbingTwiceIsLost()
    ensures IdentityText("../../a") == "a"
  {
    var a := Normal("a");
    ComponentsOfTwoClimbs();
    NormalizeTwoClimbs(a);
    RenderStep([], a);
    assert [] + [a] == [a];
  }

  lemma {:induction false} NormalizeTwoClimbs(a: Component)
    requires a.Normal?
    ensures Normalize([ParentDir] + [ParentDir] + [a]) == [a]
  {
    NormalizeMore([], [], ParentDir);
    assert [] + [ParentDir] == [ParentDir];
    NormalizeMore([], [ParentDir], ParentDir);
    NormalizeMore([], [ParentDir] + [ParentDir], a);
  }

  // ---------------------------------------------------------------- joining

  lemma {:induction false} NormalizeJoin(a: seq<Component>, b: seq<Component>)
    ensures Normalize(a + b) == NormalizeFrom(Normalize(a), b)
    decreases |b|
  {
    if b == [] {
      assert a + b == a;
    } else {
      var init, c := b[..|b| - 1], b[|b| - 1];
      assert init + [c] == b && a + b == (a + init) + [c];
      NormalizeJoin(a, init);
      NormalizeMore([], a + init, c);
      NormalizeMore(Normalize(a), init, c);
    }
  }

  lemma {:induction false} NormalizeNames(acc: seq<Component>, names: seq<Component>)
    requires AllNormal(names)
    ensures NormalizeFrom(acc, names) == acc + names
    decreases |names|
  {
    if names != [] {
      var init, c := names[..|names| - 1], names[|names| - 1];
      assert init + [c] == names && (acc + init) + [c] == acc + names;
      NormalizeNames(acc, init);
      NormalizeMore(acc, init, c);
    }
  }

  lemma {:induction false} LeadIsNothing(text: string)
    requires !Absolute(text)
    ensures Normalize(Lead(text)) == []
  {
    NormalizeMore([], [], CurDir);
    assert [] + [CurDir] == [CurDir];
  }

  lemma {:induction false} PushOntoNothing(text: string)
    requires !Absolute(text)
    ensures Identity(Push("", text)) == NormalizeFrom([], Parts(Split(text)))
  {
    assert Push("", text) == text;
    LeadIsNothing(text);
    NormalizeJoin(Lead(text), Parts(Split(text)));
  }

  lemma {:induction false} IdentityOfNothing()
    ensures Identity("") == []
  {
    assert Split("") == [""] && Parts([""]) == [];
  }

  /** Pushing a relative text continues from the identity of the buffer, also of an empty one. */
  lemma {:induction false} IdentityOfPush(base: string, text: string)
    requires !Absolute(text)
    ensures Identity(Push(base, text)) == NormalizeFrom(Identity(base), Parts(Split(text)))
  {
    if base == "" {
      IdentityOfNothing();
      PushOntoNothing(text);
    } else {
      ComponentsOfPush(base, text);
      NormalizeJoin(Components(base), Parts(Split(text)));
    }
  }

  /** Normalizing a joined path depends only on the identity of the left part. */
  lemma {:induction false} JoinDependsOnIdentity(base1: string, base2: string, text: string)
    requires Identity(base1) == Identity(base2)
    ensures Identity(Push(base1, text)) == Identity(Push(base2, text))
  {
    if !Absolute(text) {
      IdentityOfPush(base1, text);
      IdentityOfPush(base2, text);
    }
  }

  // ---------------------------------------------------------------- the loop on text

  /** One turn of the loop, on the text of the buffer. */
  function TextStep(buffer: string, c: Component): string {
    match c
    case CurDir => buffer
    case ParentDir =>
      (match Pop(buffer)
       case Some(parent) => parent
       case None => Push(buffer, Text(c)))
    case _ => Push(buffer, Text(c))
  }

  lemma TextStepFollows(acc: seq<Component>, c: Component)
    requires Clean(acc) && Clean(NormalizeStep(acc, c))
    ensures TextStep(Render(acc), c) == Render(NormalizeStep(acc, c))
  {
    match c
    case CurDir =>
    case ParentDir =>
      PopRender(acc);
      if Pop(Render(acc)).None? { RenderStep(acc, c); }
    case _ => RenderStep(acc, c);
  }

  lemma TurnFollows(cs: seq<Component>, i: nat)
    requires WellFormed(cs) && i < |cs| && Clean(Normalize(cs[..i]))
    ensures Clean(Normalize(cs[..i + 1]))
    ensures TextStep(Render(Normalize(cs[..i])), cs[i]) == Render(Normalize(cs[..i + 1]))
  {
    assert cs[..i + 1] == cs[..i] + [cs[i]];
    NormalizeIsClean(cs[..i + 1]);
    NormalizeMore([], cs[..i], cs[i]);
    TextStepFollows(Normalize(cs[..i]), cs[i]);
  }

  /** The body of the loop. */
  method Turn(buffer: string, component: Component) returns (next: string)
    ensures next == TextStep(buffer, component)
  {
    match component {
      case CurDir => next := buffer;
      case ParentDir =>
        var popped := Pop(buffer);
        match popped {
          case Some(parent) => next := parent;
          case None => next := Push(buffer, Text(component));
        }
      case _ => next := Push(buffer, Text(component));
    }
  }

  /** `normalize_target_path`: the loop that pushes to and pops from a path buffer. */
  method NormalizeTargetPath(path: string) returns (normalized: string)
    ensures normalized == IdentityText(path)
  {
    var components := Components(path);
    ComponentsWellFormed(path);
    normalized := "";
    for i := 0 to |components|
      invariant Clean(Normalize(components[..i]))
      invariant normalized == Render(Normalize(components[..i]))
    {
      TurnFollows(components, i);
      normalized := Turn(normalized, components[i]);
    }
    assert components[..|components|] == components;
  }

  /** The text of an identity reads back as that identity. */
  lemma {:induction false} IdentityOfText(path: string)
    ensures Components(IdentityText(path)) == Identity(path)
    ensures Clean(Identity(path)) && (Rooted(Identity(path)) <==> Absolute(path))
  {
    ComponentsWellFormed(path);
    NormalizeIsClean(Components(path));
    ComponentsOfRender(Identity(path));
  }

  /** `normalize_target_path` is idempotent on every path string. */
  lemma {:induction false} NormalizeTextTwice(path: string)
    ensures IdentityText(IdentityText(path)) == IdentityText(path)
  {
    IdentityOfText(path);
    ComponentsWellFormed(path);
    NormalizeTwice(Components(path));
  }
}
