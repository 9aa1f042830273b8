/**
 Containment, relative paths and projection of target paths.  The source compares strings whose
 trailing slashes it trims and adds again; here that is tied to prefixes of component lists.
 */
module PathTargets {
  import opened Prelude
  import opened PathText
  import opened PathNormal

  function TrimSlashes(s: string): string {
    if s != "" && s[|s| - 1] == '/' then TrimSlashes(s[..|s| - 1]) else s
  }

  /** `target_path_is_within`. */
  predicate IsWithin(path: string, root: string) {
    var p, r := IdentityText(path), IdentityText(root);
    if p == r then true
    else
      var prefix := TrimSlashes(r);
      if prefix == "" then "/" <= p else prefix + "/" <= p
  }

  function StripPrefix(s: string, prefix: string): Option<string> {
    if prefix <= s then Some(s[|prefix|..]) else None
  }

  /** `target_path_relative`. */
  function Relative(path: string, root: string): Option<string> {
    if ParentDir in Components(path) then None
    else
      var p, r := IdentityText(path), IdentityText(root);
      if p == r then Some("")
      else
        var prefix := TrimSlashes(r);
        if prefix == "" then StripPrefix(p, "/") else StripPrefix(p, prefix + "/")
  }

  /** Where a configured project lies in a worktree: `relative` below the worktree's root. */
  function ProjectInto(worktreeRoot: string, relative: string): string {
    if relative == "" then worktreeRoot else Push(worktreeRoot, relative)
  }

  // ---------------------------------------------------------------- text prefixes and component prefixes

  /** The text after which the parts below `a` are written. */
  function Below(a: seq<Component>): string {
    if a == [RootDir] then "/" else Render(a) + "/"
  }

  predicate AllParts(cs: seq<Component>) {
    forall i :: 0 <= i < |cs| ==> IsPart(cs[i])
  }

  lemma {:induction false} RenderJoin(a: seq<Component>, c: seq<Component>)
    requires Clean(a) && a != [] && AllParts(c) && c != []
    ensures Clean(a + c) && Render(a + c) == Below(a) + Render(c)
    decreases |c|
  {
    var init, last := c[..|c| - 1], c[|c| - 1];
    assert init + [last] == c && a + c == (a + init) + [last];
    if init == [] {
      RenderJoinOne(a, last);
      assert a + init == a && [] + [last] == c;
    } else {
      RenderJoin(a, init);
      RenderJoinMore(a, init, last);
    }
  }

  lemma RenderJoinMore(a: seq<Component>, init: seq<Component>, last: Component)
    requires Clean(a) && a != [] && AllParts(init) && init != [] && IsPart(last)
    requires Clean(a + init) && Render(a + init) == Below(a) + Render(init)
    ensures Clean((a + init) + [last]) && Render((a + init) + [last]) == Below(a) + Render(init + [last])
  {
    RenderMore(a + init, last);
    RenderMore(init, last);
    TextAssoc(Below(a), Render(init), Text(last));
  }

  lemma TextAssoc(a: string, b: string, c: string)
    ensures (a + b) + "/" + c == a + (b + "/" + c)
  {
  }

  lemma RenderJoinOne(a: seq<Component>, c: Component)
    requires Clean(a) && a != [] && IsPart(c)
    ensures Clean(a + [c]) && Render(a + [c]) == Below(a) + Render([c])
  {
    RenderMore(a, c);
    RenderMore([], c);
    assert [] + [c] == [c];
  }

  lemma ComponentsBelow(a: seq<Component>, y: string)
    requires Clean(a) && a != []
    ensures Components(Below(a) + y) == a + Parts(Split(y))
  {
    ComponentsOfRender(a);
    if a == [RootDir] {
      ComponentsAfterRoot(y);
    } else {
      ComponentsAfterSlash(Render(a), y);
      assert Below(a) + y == Render(a) + "/" + y;
    }
  }

  lemma TextPrefixIsPrefix(a: seq<Component>, b: seq<Component>)
    requires Clean(a) && Clean(b) && a != [] && Below(a) <= Render(b)
    ensures a <= b
  {
    var y := Render(b)[|Below(a)|..];
    assert Render(b) == Below(a) + y;
    ComponentsOfRender(b);
    ComponentsBelow(a, y);
  }

  lemma PrefixIsTextPrefix(a: seq<Component>, b: seq<Component>)
    requires Clean(a) && Clean(b) && a != [] && a <= b && a != b
    ensures Below(a) <= Render(b)
  {
    var c := b[|a|..];
    assert b == a + c;
    RenderJoin(a, c);
  }

  lemma RenderIsInjective(a: seq<Component>, b: seq<Component>)
    requires Clean(a) && Clean(b)
    ensures Render(a) == Render(b) <==> a == b
  {
    ComponentsOfRender(a);
    ComponentsOfRender(b);
  }

  /** The text of `b` continues the text of `a` exactly when `b` continues `a`. */
  lemma PrefixOfText(a: seq<Component>, b: seq<Component>)
    requires Clean(a) && Clean(b) && a != []
    ensures Render(a) == Render(b) || Below(a) <= Render(b) <==> a <= b
    ensures Render(a) == Render(b) <==> a == b
  {
    RenderIsInjective(a, b);
    if Below(a) <= Render(b) { TextPrefixIsPrefix(a, b); }
    if a <= b && a != b { PrefixIsTextPrefix(a, b); }
  }

  lemma TrimRender(cs: seq<Component>)
    requires Clean(cs)
    ensures TrimSlashes(Render(cs)) == if cs == [RootDir] then "" else Render(cs)
  {
    if cs == [RootDir] {
      RenderRoot();
      assert "/"[..0] == "";
    } else if cs != [] {
      RenderEnd(cs);
    }
  }

  // ---------------------------------------------------------------- containment

  /** The string test is a prefix test on components; only a root without components is special. */
  lemma WithinIsPrefix(path: string, root: string)
    ensures IsWithin(path, root) <==>
            if Identity(root) == [] then Identity(path) == [] || Absolute(path)
            else Identity(root) <= Identity(path)
  {
    var a, b := Identity(root), Identity(path);
    IdentityOfText(root);
    IdentityOfText(path);
    ComponentsWellFormed(IdentityText(path));
    ComponentsOfRender(a);
    ComponentsOfRender(b);
    TrimRender(a);
    RenderRoot();
    assert "/" <= Render(b) <==> Absolute(path);
    if a != [] {
      PrefixOfText(a, b);
    }
  }

  /** Containment is a partial order on all paths, up to identity. */
  lemma WithinIsReflexive(a: string)
    ensures IsWithin(a, a)
  {
  }

  lemma WithinIsTransitive(a: string, b: string, c: string)
    requires IsWithin(a, b) && IsWithin(b, c)
    ensures IsWithin(a, c)
  {
    WithinIsPrefix(a, b);
    WithinIsPrefix(b, c);
    WithinIsPrefix(a, c);
    IdentityOfText(a);
    IdentityOfText(b);
    var (x, y, z) := (Identity(a), Identity(b), Identity(c));
    if z == [] {
      assert y != [] && y <= x ==> x[0] == y[0];
    } else {
      assert z <= y && y <= x ==> z <= x;
    }
  }

  lemma WithinIsAntisymmetric(a: string, b: string)
    requires IsWithin(a, b) && IsWithin(b, a)
    ensures IdentityText(a) == IdentityText(b)
  {
    WithinIsPrefix(a, b);
    WithinIsPrefix(b, a);
    IdentityOfText(a);
    IdentityOfText(b);
    PrefixBothWays(Identity(a), Identity(b));
  }

  lemma PrefixBothWays<T>(x: seq<T>, y: seq<T>)
    ensures x <= y && y <= x ==> x == y
  {
    if x <= y && y <= x { assert x == y[..|x|]; }
  }

  // ---------------------------------------------------------------- relative paths

  lemma {:induction false} NoParentNoClimb(cs: seq<Component>)
    requires ParentDir !in cs
    ensures Meaning(cs).climbs == 0
    decreases |cs|
  {
    if cs != [] {
      var init, c := cs[..|cs| - 1], cs[|cs| - 1];
      assert init + [c] == cs;
      NoParentNoClimb(init);
      MeaningMore(init, c);
    }
  }

  /** After its head, a clean list without `..` has only names. */
  lemma NamesAfterHead(cs: seq<Component>, n: nat)
    requires Clean(cs) && ParentDir !in cs && 1 <= n <= |cs|
    ensures AllNormal(cs[n..])
  {
    forall i | 0 <= i < |cs[n..]| ensures IsNormal(cs[n..][i]) {
      assert cs[n..][i] == cs[n + i] && cs[n + i] in cs;
    }
  }

  /** Below a non-empty prefix, the identity of a path without `..` has only names. */
  lemma NamesBelow(path: string, n: nat)
    requires ParentDir !in Components(path) && 1 <= n <= |Identity(path)|
    ensures AllNormal(Identity(path)[n..])
  {
    ComponentsWellFormed(path);
    NoParentNoClimb(Components(path));
    NormalizeDots(Components(path));
    NormalizeIsClean(Components(path));
    NamesAfterHead(Identity(path), n);
  }

  /** A relative path exists exactly for paths without `..` that are within the root. */
  lemma RelativeIffWithin(path: string, root: string)
    ensures Relative(path, root).Some? <==> ParentDir !in Components(path) && IsWithin(path, root)
  {
  }

  /** The relative path is the text of the components below the root. */
  lemma RelativeIsRest(path: string, root: string)
    requires Relative(path, root).Some? && Identity(root) != []
    ensures Identity(root) <= Identity(path)
    ensures var rest := Identity(path)[|Identity(root)|..];
            AllNormal(rest) && Relative(path, root) == Some(Render(rest))
  {
    var a, b := Identity(root), Identity(path);
    RelativeIffWithin(path, root);
    WithinIsPrefix(path, root);
    IdentityOfText(root);
    IdentityOfText(path);
    NamesBelow(path, |a|);
    TrimRender(a);
    RenderIsInjective(a, b);
    if a != b { RestOfText(a, b); }
  }

  lemma RestOfText(a: seq<Component>, b: seq<Component>)
    requires Clean(a) && Clean(b) && a != [] && a <= b && a != b && AllNormal(b[|a|..])
    ensures Below(a) <= Render(b) && Render(b)[|Below(a)|..] == Render(b[|a|..])
    ensures a == [RootDir] <==> Render(a) == "/"
  {
    assert b == a + b[|a|..];
    RenderJoin(a, b[|a|..]);
    ComponentsOfRender(a);
    RenderRoot();
  }

  lemma NamesText(names: seq<Component>)
    requires AllNormal(names)
    ensures Clean(names) && Parts(Split(Render(names))) == names
    ensures !Absolute(Render(names))
    ensures Render(names) == "" <==> names == []
  {
    ComponentsOfRender(names);
    ComponentsWellFormed(Render(names));
    var lead := Lead(Render(names));
    assert lead == names[..|lead|];
  }

  /** Projection appends the names of the relative path to the identity of the worktree's root. */
  lemma ProjectionAppends(worktreeRoot: string, names: seq<Component>)
    requires AllNormal(names)
    ensures Identity(ProjectInto(worktreeRoot, Render(names))) == Identity(worktreeRoot) + names
  {
    NamesText(names);
    if names != [] {
      IdentityOfPush(worktreeRoot, Render(names));
      NormalizeNames(Identity(worktreeRoot), names);
    }
  }

  /** The repository's own root projects back to the configured root. */
  lemma RepositoryProjectsBack(configured: string, repository: string)
    requires Absolute(repository) && Relative(configured, repository).Some?
    ensures Identity(ProjectInto(repository, Relative(configured, repository).value)) == Identity(configured)
  {
    IdentityOfText(repository);
    RelativeIsRest(configured, repository);
    ProjectionAppends(repository, Identity(configured)[|Identity(repository)|..]);
  }

  /** Worktrees project to the same target exactly if their roots are the same. */
  lemma ProjectionIsInjective(configured: string, repository: string, root1: string, root2: string)
    requires Absolute(repository) && Relative(configured, repository).Some?
    ensures var relative := Relative(configured, repository).value;
            Identity(ProjectInto(root1, relative)) == Identity(ProjectInto(root2, relative))
            <==> Identity(root1) == Identity(root2)
  {
    IdentityOfText(repository);
    RelativeIsRest(configured, repository);
    var names := Identity(configured)[|Identity(repository)|..];
    ProjectionAppends(root1, names);
    ProjectionAppends(root2, names);
    var a, b := Identity(root1), Identity(root2);
    if a + names == b + names {
      assert a == (a + names)[..|a|] && b == (b + names)[..|b|];
    }
  }

  /** Extracting what was joined: the same names come back, unless the root itself has a `..`. */
  lemma RelativeOfProjection(root: string, names: seq<Component>)
    requires Absolute(root) && AllNormal(names)
    ensures Relative(ProjectInto(root, Render(names)), root) ==
            if ParentDir in Components(root) then None else Some(Render(names))
  {
    var path := ProjectInto(root, Render(names));
    ProjectionAppends(root, names);
    NamesText(names);
    if names != [] { ComponentsOfPush(root, Render(names)); }
    assert ParentDir in Components(path) <==> ParentDir in Components(root);
    if ParentDir !in Components(root) {
      IdentityOfText(root);
      WithinIsPrefix(path, root);
      RelativeIffWithin(path, root);
      RelativeIsRest(path, root);
      assert (Identity(root) + names)[|Identity(root)|..] == names;
    }
  }
}
