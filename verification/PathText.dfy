/**
 POSIX path text as Rust's `std::path` reads and writes it.  A path is a string; its components
 are what `Path::components` yields; `Push` and `Pop` are `PathBuf::push` and `PathBuf::pop`.
 */
module PathText {
  import opened Prelude

  datatype Component = RootDir | CurDir | ParentDir | Normal(name: string)

  // ---------------------------------------------------------------- reading

  /** The text between the slashes; n slashes give n + 1 segments. */
  function Split(s: string): (segments: seq<string>)
    ensures |segments| >= 1
  {
    if s == "" then [""]
    else if s[0] == '/' then [""] + Split(s[1..])
    else var rest := Split(s[1..]); [[s[0]] + rest[0]] + rest[1..]
  }

  /** Empty segments and `.` segments are not components. */
  function PartOf(segment: string): seq<Component> {
    if segment == "" || segment == "." then []
    else if segment == ".." then [ParentDir]
    else [Normal(segment)]
  }

  function Parts(segments: seq<string>): seq<Component> {
    if segments == [] then [] else PartOf(segments[0]) + Parts(segments[1..])
  }

  predicate Absolute(path: string) {
    path != "" && path[0] == '/'
  }

  /** The root of an absolute path; a leading `.` of a relative path. */
  function Lead(path: string): seq<Component> {
    if Absolute(path) then [RootDir] else if Split(path)[0] == "." then [CurDir] else []
  }

  /** `Path::components`. */
  function Components(path: string): seq<Component> {
    Lead(path) + Parts(Split(path))
  }

  // ---------------------------------------------------------------- writing

  function Text(c: Component): string {
    match c
    case RootDir => "/"
    case CurDir => "."
    case ParentDir => ".."
    case Normal(name) => name
  }

  /** `PathBuf::push`. */
  function Push(buffer: string, text: string): string {
    if Absolute(text) then text
    else if buffer != "" && buffer[|buffer| - 1] != '/' then buffer + "/" + text
    else buffer + text
  }

  /** Where the last slash is, or -1. */
  function LastSlash(s: string): (i: int)
    ensures -1 <= i < |s|
    ensures i >= 0 ==> s[i] == '/'
    ensures forall j :: i < j < |s| ==> s[j] != '/'
  {
    if s == "" then -1
    else if s[|s| - 1] == '/' then |s| - 1
    else LastSlash(s[..|s| - 1])
  }

  /** `PathBuf::pop` of a buffer without empty or `.` segments: the parent, unless there is none. */
  function Pop(buffer: string): Option<string> {
    if buffer == "" || buffer == "/" then None
    else
      var i := LastSlash(buffer);
      if i < 0 then Some("") else if i == 0 then Some("/") else Some(buffer[..i])
  }

  function Render(cs: seq<Component>): string {
    if cs == [] then "" else Push(Render(cs[..|cs| - 1]), Text(cs[|cs| - 1]))
  }

  // ---------------------------------------------------------------- well-formed component lists

  predicate IsName(name: string) {
    name != "" && name != "." && name != ".." && '/' !in name
  }

  predicate IsNormal(c: Component) {
    c.Normal? && IsName(c.name)
  }

  /** What can follow the first component. */
  predicate IsPart(c: Component) {
    c == ParentDir || IsNormal(c)
  }

  /** What `Components` can yield: the root and `.` come only first. */
  predicate WellFormed(cs: seq<Component>) {
    && (cs != [] ==> cs[0] == RootDir || cs[0] == CurDir || IsPart(cs[0]))
    && forall i :: 1 <= i < |cs| ==> IsPart(cs[i])
  }

  /** Well-formed and without `.`. */
  predicate Clean(cs: seq<Component>) {
    WellFormed(cs) && (cs != [] ==> cs[0] != CurDir)
  }

  // ---------------------------------------------------------------- reading lemmas

  lemma SplitCons(c: char, s: string)
    ensures Split([c] + s) == if c == '/' then [""] + Split(s) else [[c] + Split(s)[0]] + Split(s)[1..]
  {
    assert ([c] + s)[1..] == s;
  }

  lemma FirstLonger(c: char, a: seq<string>, b: seq<string>)
    requires a != []
    ensures [[c] + (a + b)[0]] + (a + b)[1..] == ([[c] + a[0]] + a[1..]) + b
  {
    assert (a + b)[0] == a[0] && (a + b)[1..] == a[1..] + b;
  }

  lemma {:induction false} SplitJoin(x: string, y: string)
    ensures Split(x + "/" + y) == Split(x) + Split(y)
    decreases |x|
  {
    if x == "" {
      assert x + "/" + y == ['/'] + y;
      SplitCons('/', y);
    } else {
      var a, b, rest := Split(x[1..]), Split(y), x[1..] + "/" + y;
      SplitJoin(x[1..], y);
      assert x + "/" + y == [x[0]] + rest;
      SplitCons(x[0], rest);
      if x[0] == '/' {
        Assoc([""], a, b);
      } else {
        FirstLonger(x[0], a, b);
      }
    }
  }

  lemma {:induction false} SplitName(s: string)
    requires '/' !in s
    ensures Split(s) == [s]
    decreases |s|
  {
    if s != "" {
      SplitName(s[1..]);
      assert [s[0]] + s[1..] == s;
    }
  }

  lemma {:induction false} SplitHasNoSlash(s: string)
    ensures forall i :: 0 <= i < |Split(s)| ==> '/' !in Split(s)[i]
    decreases |s|
  {
    if s != "" { SplitHasNoSlash(s[1..]); }
  }

  lemma Assoc<T>(p: seq<T>, q: seq<T>, r: seq<T>)
    ensures p + (q + r) == (p + q) + r
  {
  }

  lemma {:induction false} PartsJoin(a: seq<string>, b: seq<string>)
    ensures Parts(a + b) == Parts(a) + Parts(b)
    decreases |a|
  {
    if a == [] {
      assert a + b == b;
    } else {
      PartsJoin(a[1..], b);
      assert (a + b)[1..] == a[1..] + b && (a + b)[0] == a[0];
      Assoc(PartOf(a[0]), Parts(a[1..]), Parts(b));
    }
  }

  lemma {:induction false} PartsAreParts(segments: seq<string>)
    requires forall i :: 0 <= i < |segments| ==> '/' !in segments[i]
    ensures forall i :: 0 <= i < |Parts(segments)| ==> IsPart(Parts(segments)[i])
  {
    if segments != [] { PartsAreParts(segments[1..]); }
  }

  lemma ComponentsWellFormed(path: string)
    ensures WellFormed(Components(path))
    ensures Components(path) != [] && Components(path)[0] == RootDir <==> Absolute(path)
  {
    SplitHasNoSlash(path);
    PartsAreParts(Split(path));
  }

  /** A path has a `.` component exactly if it begins with one. */
  lemma LeadingDot(path: string)
    ensures CurDir in Components(path) <==> path == "." || "./" <= path
  {
    ComponentsWellFormed(path);
    SplitHasNoSlash(path);
    PartsAreParts(Split(path));
    assert CurDir in Components(path) <==> CurDir in Lead(path);
    if path != "" && path[0] != '/' {
      var (rest, after) := (path[1..], Split(path[1..])[0]);
      assert Split(path)[0] == [path[0]] + after && (after == "" <==> rest == "" || rest[0] == '/');
      var first := [path[0]] + after;
      assert first[0] == path[0] && |first| == 1 + |after|;
      assert path[0] == '.' && after == "" ==> first == ".";
    }
  }

  /** Text after a slash adds its parts to the components before it. */
  lemma ComponentsAfterSlash(x: string, y: string)
    requires x != ""
    ensures Components(x + "/" + y) == Components(x) + Parts(Split(y))
  {
    SplitJoin(x, y);
    PartsJoin(Split(x), Split(y));
    assert Lead(x + "/" + y) == Lead(x) by {
      assert (x + "/" + y)[0] == x[0];
      assert (Split(x) + Split(y))[0] == Split(x)[0];
    }
    Assoc(Lead(x), Parts(Split(x)), Parts(Split(y)));
  }

  lemma ComponentsAfterRoot(y: string)
    ensures Components("/" + y) == [RootDir] + Parts(Split(y))
  {
    SplitJoin("", y);
    assert "" + "/" + y == "/" + y;
    PartsJoin([""], Split(y));
    assert Parts([""]) == [];
  }

  /** `Path::join` with relative text adds the text's parts. */
  lemma ComponentsOfPush(base: string, text: string)
    requires base != "" && !Absolute(text)
    ensures Components(Push(base, text)) == Components(base) + Parts(Split(text))
  {
    if base[|base| - 1] != '/' {
      ComponentsAfterSlash(base, text);
    } else {
      var x := base[..|base| - 1];
      assert base == x + "/" + "" && base + text == x + "/" + text;
      assert Parts(Split("")) == [];
      if x == "" {
        assert base == "/" + "" && base + text == "/" + text;
        ComponentsAfterRoot("");
        ComponentsAfterRoot(text);
      } else {
        ComponentsAfterSlash(x, "");
        ComponentsAfterSlash(x, text);
      }
    }
  }

  // ---------------------------------------------------------------- writing lemmas

  lemma PartText(c: Component)
    requires IsPart(c)
    ensures Text(c) != "" && '/' !in Text(c) && !Absolute(Text(c))
    ensures Parts(Split(Text(c))) == [c]
  {
    SplitName(Text(c));
    assert Parts([Text(c)]) == [c];
  }

  lemma RenderStep(init: seq<Component>, c: Component)
    ensures Render(init + [c]) == Push(Render(init), Text(c))
  {
    assert (init + [c])[..|init|] == init;
  }

  /** Reading back what was written. */
  lemma {:induction false} ComponentsOfRender(cs: seq<Component>)
    requires Clean(cs)
    ensures Components(Render(cs)) == cs
    ensures cs == [] <==> Render(cs) == ""
    decreases |cs|
  {
    if cs != [] {
      var init, c := cs[..|cs| - 1], cs[|cs| - 1];
      assert init + [c] == cs;
      ComponentsOfRender(init);
      ComponentsOfMore(init, c);
    }
  }

  lemma ComponentsOfMore(init: seq<Component>, c: Component)
    requires Clean(init + [c]) && Components(Render(init)) == init && (init == [] <==> Render(init) == "")
    ensures Components(Render(init + [c])) == init + [c] && Render(init + [c]) != ""
  {
    RenderStep(init, c);
    assert (init + [c])[|init|] == c;
    if init == [] {
      ComponentsOfOne(c);
    } else {
      PartText(c);
      ComponentsOfPush(Render(init), Text(c));
    }
  }

  lemma ComponentsOfOne(c: Component)
    requires c == RootDir || IsPart(c)
    ensures Components(Text(c)) == [c] && Push("", Text(c)) == Text(c)
  {
    if c == RootDir {
      ComponentsAfterRoot("");
      assert "/" + "" == "/" && Parts(Split("")) == [];
    } else {
      PartText(c);
      SplitName(Text(c));
    }
  }

  /** The buffer ends with a slash only if it is the root. */
  lemma RenderEnd(cs: seq<Component>)
    requires Clean(cs) && cs != [] && cs != [RootDir]
    ensures Render(cs) != "" && Render(cs)[|Render(cs)| - 1] != '/'
  {
    var last := cs[|cs| - 1];
    PartText(last);
  }

  lemma RenderRoot()
    ensures Render([RootDir]) == "/"
  {
    RenderStep([], RootDir);
    assert [] + [RootDir] == [RootDir];
  }

  /** Writing one more part. */
  lemma RenderMore(cs: seq<Component>, c: Component)
    requires Clean(cs) && IsPart(c)
    ensures Clean(cs + [c])
    ensures Render(cs + [c]) ==
            if cs == [] then Text(c) else if cs == [RootDir] then "/" + Text(c) else Render(cs) + "/" + Text(c)
  {
    PartText(c);
    RenderStep(cs, c);
    if cs != [] && cs != [RootDir] { RenderEnd(cs); }
    if cs == [RootDir] { RenderRoot(); }
  }

  lemma PopText(s: string, name: string)
    requires name != "" && '/' !in name
    ensures Pop(name) == Some("")
    ensures Pop("/" + name) == Some("/")
    ensures s != "" ==> Pop(s + "/" + name) == Some(s)
  {
    assert LastSlash(name) == -1;
    LastSlashBefore("", name);
    assert "" + "/" + name == "/" + name;
    LastSlashBefore(s, name);
    assert (s + "/" + name)[..|s|] == s;
  }

  lemma LastSlashBefore(s: string, name: string)
    requires '/' !in name
    ensures LastSlash(s + "/" + name) == |s|
  {
    var t := s + "/" + name;
    assert t[|s|] == '/';
    assert forall j :: |s| < j < |t| ==> t[j] in name;
  }

  /** `pop` undoes `push`, and fails only on the empty path and on the root. */
  lemma PopRender(cs: seq<Component>)
    requires Clean(cs)
    ensures Pop(Render(cs)) == if cs == [] || cs == [RootDir] then None else Some(Render(cs[..|cs| - 1]))
  {
    if cs == [RootDir] {
      RenderRoot();
    } else if cs != [] {
      var init, c := cs[..|cs| - 1], cs[|cs| - 1];
      assert init + [c] == cs;
      PopPart(init, c);
    }
  }

  lemma PopPart(init: seq<Component>, c: Component)
    requires Clean(init) && IsPart(c)
    ensures Pop(Render(init + [c])) == Some(Render(init))
  {
    RenderRoot();
    RenderMore(init, c);
    PartText(c);
    PopText(Render(init), Text(c));
    ComponentsOfRender(init);
  }
}
