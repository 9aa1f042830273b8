/**
 Resolution of an explicit worktree target.  The file system can change between any two accesses:
 the access with number n sees snapshot fs(n).
 */
module TargetResolution {
  import opened Prelude
  import opened PathText
  import opened PathNormal
  import opened PathTargets

  /** What the server can ask of the file system at one instant. */
  datatype Snapshot = Snapshot(
    canonical: map<string, string>,   // canonicalize, where it succeeds
    dirs: set<string>,                // is_dir
    realDirs: set<string>)            // symlink_metadata says directory, and not a link

  type FileSystem = nat -> Snapshot

  function Canonicalize(s: Snapshot, path: string): Option<string> {
    if path in s.canonical then Some(s.canonical[path]) else None
  }

  datatype Error = UnregisteredTarget | UnavailableTarget | InvalidPath | GitFailed
  datatype Result<+T> = Ok(value: T) | Err(error: Error)

  /** What git answers; `NotARepository` is told apart by its message. */
  datatype GitAnswer<+T> = Answer(value: T) | NotARepository | OtherFailure

  datatype Candidate = Candidate(
    worktree: Worktree,
    targetPath: string,
    canonicalTarget: Option<string>,
    stableTarget: string,
    available: bool)

  datatype Target = Target(configuredRoot: string, targetPath: string, isRoot: bool, worktree: Option<Candidate>)

  // ---------------------------------------------------------------- discovery

  const ACCESSES_PER_WORKTREE := 3

  /** One worktree, seen by the accesses `at`, `at + 1` and `at + 2`. */
  function Register(fs: FileSystem, at: nat, relative: string, w: Worktree): Candidate {
    var targetPath := ProjectInto(w.path, relative);
    var canonicalTarget := Canonicalize(fs(at), targetPath);
    var stable := if canonicalTarget.Some? then canonicalTarget.value else IdentityText(targetPath);
    var canonicalRoot := Canonicalize(fs(at + 1), w.path);
    var available :=
      && !w.isBare && w.isAvailable
      && canonicalRoot.Some? && canonicalTarget.Some?
      && canonicalTarget.value in fs(at + 2).dirs
      && IsWithin(canonicalTarget.value, canonicalRoot.value);
    Candidate(w, targetPath, canonicalTarget, stable, available)
  }

  function RegisterAll(fs: FileSystem, at: nat, relative: string, ws: seq<Worktree>): (cs: seq<Candidate>)
    ensures |cs| == |ws|
    ensures forall i :: 0 <= i < |ws| ==> cs[i] == Register(fs, at + ACCESSES_PER_WORKTREE * i, relative, ws[i])
  {
    seq(|ws|, i requires 0 <= i < |ws| => Register(fs, at + ACCESSES_PER_WORKTREE * i, relative, ws[i]))
  }

  function GitError<T, U>(answer: GitAnswer<T>): Result<U>
    requires !answer.Answer?
  {
    Err(if answer.NotARepository? then UnregisteredTarget else GitFailed)
  }

  /** `discover_targets`, from access `at` on. */
  function DiscoverTargets(
    fs: FileSystem, at: nat, configuredRoot: string, repository: GitAnswer<string>, ws: seq<Worktree>)
    : Result<seq<Candidate>>
  {
    if !repository.Answer? then GitError(repository)
    else match Canonicalize(fs(at), repository.value)
      case None => Err(UnavailableTarget)
      case Some(root) =>
        match Relative(configuredRoot, root)
        case None => Err(InvalidPath)
        case Some(relative) => Ok(RegisterAll(fs, at + 1, relative, ws))
  }

  // ---------------------------------------------------------------- matching

  /** `paths_match`: the main worktree is not reached through an alias. */
  predicate PathsMatch(requestedCanonical: Option<string>, requested: string, c: Candidate) {
    || (&& requestedCanonical.Some? && c.canonicalTarget.Some?
        && IdentityText(requestedCanonical.value) == IdentityText(c.canonicalTarget.value)
        && (!c.worktree.isMain || IdentityText(requested) == IdentityText(c.targetPath)))
    || IdentityText(requested) == IdentityText(c.stableTarget)
  }

  /** The first item that satisfies p. */
  function FindFirst<T>(items: seq<T>, p: T -> bool): (found: Option<nat>)
    ensures found.Some? ==> found.value < |items| && p(items[found.value])
    ensures found.Some? ==> forall i :: 0 <= i < found.value ==> !p(items[i])
    ensures found.None? ==> forall i :: 0 <= i < |items| ==> !p(items[i])
  {
    if items == [] then None
    else if p(items[0]) then Some(0)
    else
      match FindFirst(items[1..], p)
      case None => None
      case Some(i) => Some(i + 1)
  }

  function FindMatch(requestedCanonical: Option<string>, requested: string, cs: seq<Candidate>): Option<nat> {
    FindFirst(cs, c => PathsMatch(requestedCanonical, requested, c))
  }

  /** `live_target_path`, by the accesses `at` to `at + 3`. */
  function LiveTarget(fs: FileSystem, at: nat, c: Candidate): Option<string> {
    if c.worktree.isPrunable || !c.available then None
    else if c.worktree.path !in fs(at).realDirs then None
    else
      match Canonicalize(fs(at + 1), c.worktree.path)
      case None => None
      case Some(root) =>
        match Canonicalize(fs(at + 2), c.targetPath)
        case None => None
        case Some(target) =>
          if target in fs(at + 3).dirs && IsWithin(target, root) then Some(target) else None
  }

  // ---------------------------------------------------------------- resolve

  /** The number of the first access of `live_target_path` after `n` worktrees were registered. */
  function FinalAccess(n: nat): nat {
    4 + ACCESSES_PER_WORKTREE * n
  }

  /** The last part of `resolve`: the first candidate that matches, if it is live. */
  function ResolveAmong(fs: FileSystem, path: string, configuredRoot: string, cs: seq<Candidate>): Result<Target> {
    match FindMatch(Canonicalize(fs(2), path), path, cs)
    case None => Err(UnregisteredTarget)
    case Some(i) =>
      match LiveTarget(fs, FinalAccess(|cs|), cs[i])
      case None => Err(UnavailableTarget)
      case Some(target) => Ok(Target(configuredRoot, target, false, Some(cs[i])))
  }

  /** `resolve`; git lists the worktrees and names the repository root afresh. */
  function Resolve(
    fs: FileSystem,
    requested: Option<string>,
    configured: string,
    listed: GitAnswer<seq<Worktree>>,
    repository: GitAnswer<string>)
    : Result<Target>
  {
    match Canonicalize(fs(0), configured)
    case None => Err(UnavailableTarget)
    case Some(configuredRoot) =>
      if configuredRoot !in fs(1).dirs then Err(InvalidPath)
      else match requested
        case None => Ok(Target(configuredRoot, configuredRoot, true, None))
        case Some(path) =>
          if path == "" || '\0' in path || !Absolute(path) then Err(InvalidPath)
          else if !listed.Answer? then GitError(listed)
          else
            match DiscoverTargets(fs, 3, configuredRoot, repository, listed.value)
            case Err(e) => Err(e)
            case Ok(cs) => ResolveAmong(fs, path, configuredRoot, cs)
  }

  // ---------------------------------------------------------------- which worktree is meant

  predicate SamePath(a: string, b: string) {
    Identity(a) == Identity(b)
  }

  /**
   A request means a worktree if it is another name of the place where the configured project lies
   in it: lexically, or because both lead to one canonical directory.  The main worktree is meant
   only by a name of that place itself.  A place that does not exist is meant by its own name.
   */
  predicate MeansBy(
    path: string, canonicalPath: Option<string>, place: string, directory: Option<string>, isMain: bool)
  {
    match directory
    case None => SamePath(path, place)
    case Some(dir) =>
      || SamePath(path, dir)
      || (&& canonicalPath.Some? && SamePath(canonicalPath.value, dir)
          && (isMain ==> SamePath(path, place)))
  }

  lemma SamePathIsSameText(a: string, b: string)
    ensures SamePath(a, b) <==> IdentityText(a) == IdentityText(b)
  {
    IdentityOfText(a);
    IdentityOfText(b);
    RenderIsInjective(Identity(a), Identity(b));
  }

  lemma RegisteredIsMeant(
    fs: FileSystem, at: nat, path: string, canonicalPath: Option<string>, relative: string, w: Worktree)
    ensures var place := ProjectInto(w.path, relative);
            PathsMatch(canonicalPath, path, Register(fs, at, relative, w)) <==>
            MeansBy(path, canonicalPath, place, Canonicalize(fs(at), place), w.isMain)
  {
    var place := ProjectInto(w.path, relative);
    var directory := Canonicalize(fs(at), place);
    NormalizeTextTwice(place);
    SamePathIsSameText(path, place);
    if directory.Some? {
      SamePathIsSameText(path, directory.value);
      if canonicalPath.Some? { SamePathIsSameText(canonicalPath.value, directory.value); }
    }
  }

  // ---------------------------------------------------------------- soundness

  /** The target is a live directory inside worktree `w` when it is looked at last. */
  ghost predicate LiveIn(fs: FileSystem, last: nat, w: Worktree, projected: string, target: string) {
    && !w.isBare && !w.isPrunable && w.isAvailable
    && w.path in fs(last).realDirs
    && Canonicalize(fs(last + 2), projected) == Some(target)
    && target in fs(last + 3).dirs
    && Canonicalize(fs(last + 1), w.path).Some?
    && var root := Canonicalize(fs(last + 1), w.path).value;
    && IsWithin(target, root)
    && (Absolute(root) ==> Identity(root) <= Identity(target))
  }

  lemma LiveTargetIsLive(fs: FileSystem, last: nat, c: Candidate, target: string)
    requires LiveTarget(fs, last, c) == Some(target)
    requires c.available ==> !c.worktree.isBare && c.worktree.isAvailable
    ensures LiveIn(fs, last, c.worktree, c.targetPath, target)
  {
    var root := Canonicalize(fs(last + 1), c.worktree.path).value;
    IdentityOfText(root);
    WithinIsPrefix(target, root);
  }

  lemma ResolveLooksUp(fs: FileSystem, path: string, configured: string, ws: seq<Worktree>, repo: string,
                       configuredRoot: string, root: string, relative: string)
    requires path != "" && '\0' !in path && Absolute(path)
    requires Canonicalize(fs(0), configured) == Some(configuredRoot) && configuredRoot in fs(1).dirs
    requires Canonicalize(fs(3), repo) == Some(root) && Relative(configuredRoot, root) == Some(relative)
    ensures Resolve(fs, Some(path), configured, Answer(ws), Answer(repo)) ==
            ResolveAmong(fs, path, configuredRoot, RegisterAll(fs, 4, relative, ws))
  {
  }

  /** What a request must get past before any worktree is looked at. */
  lemma AcceptedLooksUp(fs: FileSystem, path: string, configured: string, listed: GitAnswer<seq<Worktree>>,
                        repository: GitAnswer<string>, t: Target) returns (configuredRoot: string, root: string)
    requires Resolve(fs, Some(path), configured, listed, repository) == Ok(t)
    ensures path != "" && '\0' !in path && Absolute(path) && listed.Answer? && repository.Answer?
    ensures Canonicalize(fs(0), configured) == Some(configuredRoot) && configuredRoot in fs(1).dirs
    ensures Canonicalize(fs(3), repository.value) == Some(root) && Relative(configuredRoot, root).Some?
  {
    configuredRoot := Canonicalize(fs(0), configured).value;
    root := Canonicalize(fs(3), repository.value).value;
  }

  lemma AcceptedAmong(fs: FileSystem, path: string, configuredRoot: string, cs: seq<Candidate>, t: Target)
    returns (i: nat)
    requires ResolveAmong(fs, path, configuredRoot, cs) == Ok(t)
    ensures i < |cs| && PathsMatch(Canonicalize(fs(2), path), path, cs[i])
    ensures LiveTarget(fs, FinalAccess(|cs|), cs[i]) == Some(t.targetPath)
    ensures t == Target(configuredRoot, t.targetPath, false, Some(cs[i]))
  {
    i := FindMatch(Canonicalize(fs(2), path), path, cs).value;
  }

  /** The way an explicit request takes when it is accepted. */
  lemma ResolvePath(fs: FileSystem, path: string, configured: string, listed: GitAnswer<seq<Worktree>>,
                    repository: GitAnswer<string>, t: Target)
    returns (relative: string, i: nat, c: Candidate)
    requires Resolve(fs, Some(path), configured, listed, repository) == Ok(t)
    ensures Absolute(path) && listed.Answer? && repository.Answer? && i < |listed.value|
    ensures Canonicalize(fs(0), configured) == Some(t.configuredRoot)
    ensures Canonicalize(fs(3), repository.value).Some?
    ensures Relative(t.configuredRoot, Canonicalize(fs(3), repository.value).value) == Some(relative)
    ensures c == Register(fs, FinalAccess(i), relative, listed.value[i])
    ensures !t.isRoot && t.worktree == Some(c)
    ensures PathsMatch(Canonicalize(fs(2), path), path, c)
    ensures LiveTarget(fs, FinalAccess(|listed.value|), c) == Some(t.targetPath)
  {
    var configuredRoot, root := AcceptedLooksUp(fs, path, configured, listed, repository, t);
    relative := Relative(configuredRoot, root).value;
    ResolveLooksUp(fs, path, configured, listed.value, repository.value, configuredRoot, root, relative);
    var cs := RegisterAll(fs, 4, relative, listed.value);
    i := AcceptedAmong(fs, path, configuredRoot, cs, t);
    c := cs[i];
  }

  /**
   An accepted explicit path means one of the worktrees git listed for this request, as its own
   access and the worktree's saw them, and always yields the canonical directory of the place of the
   configured project in it, however the file system changes between the accesses.
   */
  lemma ResolveIsSound(fs: FileSystem, path: string, configured: string, listed: GitAnswer<seq<Worktree>>,
                       repository: GitAnswer<string>, t: Target) returns (i: nat, relative: string)
    requires Resolve(fs, Some(path), configured, listed, repository) == Ok(t)
    ensures listed.Answer? && i < |listed.value| && !t.isRoot
    ensures t.worktree.Some? && t.worktree.value.worktree == listed.value[i]
    ensures Canonicalize(fs(0), configured) == Some(t.configuredRoot)
    ensures repository.Answer? && Canonicalize(fs(3), repository.value).Some?
    ensures Relative(t.configuredRoot, Canonicalize(fs(3), repository.value).value) == Some(relative)
    ensures var (w, place) := (listed.value[i], ProjectInto(listed.value[i].path, relative));
            && t.worktree.value.targetPath == place
            && MeansBy(path, Canonicalize(fs(2), path), place, Canonicalize(fs(FinalAccess(i)), place), w.isMain)
            && LiveIn(fs, FinalAccess(|listed.value|), w, place, t.targetPath)
  {
    var c;
    relative, i, c := ResolvePath(fs, path, configured, listed, repository, t);
    RegisteredIsMeant(fs, FinalAccess(i), path, Canonicalize(fs(2), path), relative, listed.value[i]);
    LiveTargetIsLive(fs, FinalAccess(|listed.value|), c, t.targetPath);
  }

  /** All accesses see the same file system. */
  ghost predicate Still(fs: FileSystem) {
    forall i :: fs(i) == fs(0)
  }

  /** While nothing changes, the resolved directory is the one asked for, under its own or its canonical name. */
  lemma ResolveAnswersTheRequest(fs: FileSystem, path: string, configured: string, listed: GitAnswer<seq<Worktree>>,
                                 repository: GitAnswer<string>, t: Target)
    requires Resolve(fs, Some(path), configured, listed, repository) == Ok(t) && Still(fs)
    ensures IdentityText(t.targetPath) == IdentityText(path) ||
            (Canonicalize(fs(0), path).Some? &&
             IdentityText(t.targetPath) == IdentityText(Canonicalize(fs(0), path).value))
  {
    var relative, i, c := ResolvePath(fs, path, configured, listed, repository, t);
    assert fs(2) == fs(0) && fs(FinalAccess(i)) == fs(0) && fs(FinalAccess(|listed.value|) + 2) == fs(0);
  }

  /** Worktree `w` offers the directory `target` for the configured project. */
  predicate Serves(s: Snapshot, relative: string, w: Worktree, target: string) {
    && !w.isBare && !w.isPrunable && w.isAvailable
    && w.path in s.realDirs
    && Canonicalize(s, ProjectInto(w.path, relative)) == Some(target)
    && target in s.dirs
    && Canonicalize(s, w.path).Some?
    && IsWithin(target, Canonicalize(s, w.path).value)
  }

  lemma RegisterStill(fs: FileSystem, at: nat, relative: string, w: Worktree)
    requires Still(fs)
    ensures Register(fs, at, relative, w) == Register(fs, 0, relative, w)
  {
    assert fs(at) == fs(0) && fs(at + 1) == fs(0) && fs(at + 2) == fs(0) && fs(1) == fs(0) && fs(2) == fs(0);
  }

  lemma ServedIsLive(fs: FileSystem, at: nat, relative: string, w: Worktree, target: string)
    requires Still(fs) && Serves(fs(0), relative, w, target)
    ensures LiveTarget(fs, at, Register(fs, 0, relative, w)) == Some(target)
  {
    assert fs(1) == fs(0) && fs(2) == fs(0);
    assert fs(at) == fs(0) && fs(at + 1) == fs(0) && fs(at + 2) == fs(0) && fs(at + 3) == fs(0);
  }

  lemma UnservedIsDead(fs: FileSystem, at: nat, relative: string, w: Worktree)
    requires Still(fs) && forall target :: !Serves(fs(0), relative, w, target)
    ensures LiveTarget(fs, at, Register(fs, 0, relative, w)) == None
  {
    assert fs(1) == fs(0) && fs(2) == fs(0);
    assert fs(at) == fs(0) && fs(at + 1) == fs(0) && fs(at + 2) == fs(0) && fs(at + 3) == fs(0);
    var projected := Canonicalize(fs(0), ProjectInto(w.path, relative));
    assert projected.Some? ==> !Serves(fs(0), relative, w, projected.value);
  }

  // ---------------------------------------------------------------- completeness

  /** The request means the worktree `w`, in one file system. */
  predicate Means(s: Snapshot, path: string, relative: string, w: Worktree) {
    var place := ProjectInto(w.path, relative);
    MeansBy(path, Canonicalize(s, path), place, Canonicalize(s, place), w.isMain)
  }

  ghost predicate FirstMeant(s: Snapshot, path: string, relative: string, ws: seq<Worktree>, i: nat) {
    i < |ws| && Means(s, path, relative, ws[i]) && forall j :: 0 <= j < i ==> !Means(s, path, relative, ws[j])
  }

  lemma MatchMeans(fs: FileSystem, path: string, relative: string, w: Worktree)
    requires Still(fs)
    ensures PathsMatch(Canonicalize(fs(0), path), path, Register(fs, 0, relative, w)) <==>
            Means(fs(0), path, relative, w)
  {
    RegisteredIsMeant(fs, 0, path, Canonicalize(fs(0), path), relative, w);
  }

  /** What `resolve` finds among the listed worktrees while nothing changes. */
  lemma FindMeant(fs: FileSystem, path: string, relative: string, ws: seq<Worktree>)
    requires Still(fs)
    ensures var cs := RegisterAll(fs, 4, relative, ws);
            var found := FindMatch(Canonicalize(fs(2), path), path, cs);
            && (found.Some? ==>
                  && FirstMeant(fs(0), path, relative, ws, found.value)
                  && cs[found.value] == Register(fs, 0, relative, ws[found.value]))
            && (found.None? ==> forall i :: 0 <= i < |ws| ==> !Means(fs(0), path, relative, ws[i]))
  {
    assert fs(2) == fs(0);
    var cs := RegisterAll(fs, 4, relative, ws);
    forall i | 0 <= i < |ws|
      ensures cs[i] == Register(fs, 0, relative, ws[i])
      ensures PathsMatch(Canonicalize(fs(0), path), path, cs[i]) <==> Means(fs(0), path, relative, ws[i])
    {
      RegisterStill(fs, FinalAccess(i), relative, ws[i]);
      MatchMeans(fs, path, relative, ws[i]);
    }
  }

  /** The answer for the first worktree that is meant. */
  predicate Answers(s: Snapshot, relative: string, w: Worktree, configuredRoot: string, answer: Result<Target>) {
    var place := ProjectInto(w.path, relative);
    var directory := Canonicalize(s, place);
    if directory.Some? && Serves(s, relative, w, directory.value)
    then
      && answer.Ok? && answer.value.configuredRoot == configuredRoot && !answer.value.isRoot
      && answer.value.targetPath == directory.value
      && answer.value.worktree.Some? && answer.value.worktree.value.worktree == w
      && answer.value.worktree.value.targetPath == place
    else answer == Err(UnavailableTarget)
  }

  /**
   The answer is the one for the first listed worktree that is meant; it is unregistered exactly if
   no listed worktree is meant.
   */
  ghost predicate AnswersFirstMeant(
    s: Snapshot, path: string, relative: string, ws: seq<Worktree>, configuredRoot: string, answer: Result<Target>)
  {
    && (forall i: nat {:trigger FirstMeant(s, path, relative, ws, i)} ::
          FirstMeant(s, path, relative, ws, i) ==> Answers(s, relative, ws[i], configuredRoot, answer))
    && (answer == Err(UnregisteredTarget) <==> forall w :: w in ws ==> !Means(s, path, relative, w))
  }

  lemma FirstIsOne(s: Snapshot, path: string, relative: string, ws: seq<Worktree>, i: nat, j: nat)
    requires FirstMeant(s, path, relative, ws, i) && FirstMeant(s, path, relative, ws, j)
    ensures i == j
  {
  }

  lemma LiveAnswers(fs: FileSystem, relative: string, w: Worktree, configuredRoot: string, last: nat,
                    answer: Result<Target>)
    requires Still(fs)
    requires answer ==
             match LiveTarget(fs, last, Register(fs, 0, relative, w))
             case None => Err(UnavailableTarget)
             case Some(target) => Ok(Target(configuredRoot, target, false, Some(Register(fs, 0, relative, w))))
    ensures Answers(fs(0), relative, w, configuredRoot, answer)
  {
    var directory := Canonicalize(fs(0), ProjectInto(w.path, relative));
    if directory.Some? && Serves(fs(0), relative, w, directory.value) {
      ServedIsLive(fs, last, relative, w, directory.value);
    } else {
      UnservedIsDead(fs, last, relative, w);
    }
  }

  lemma AmongExactly(fs: FileSystem, path: string, configuredRoot: string, relative: string, ws: seq<Worktree>)
    requires Still(fs)
    ensures AnswersFirstMeant(fs(0), path, relative, ws, configuredRoot,
                              ResolveAmong(fs, path, configuredRoot, RegisterAll(fs, 4, relative, ws)))
  {
    var answer := ResolveAmong(fs, path, configuredRoot, RegisterAll(fs, 4, relative, ws));
    var found := FindMatch(Canonicalize(fs(2), path), path, RegisterAll(fs, 4, relative, ws));
    FindMeant(fs, path, relative, ws);
    if found.Some? {
      LiveAnswers(fs, relative, ws[found.value], configuredRoot, FinalAccess(|ws|), answer);
      assert ws[found.value] in ws && Means(fs(0), path, relative, ws[found.value]);
      forall i: nat | FirstMeant(fs(0), path, relative, ws, i)
        ensures Answers(fs(0), relative, ws[i], configuredRoot, answer)
      {
        FirstIsOne(fs(0), path, relative, ws, i, found.value);
      }
    }
  }

  /**
   While nothing changes, a well-formed explicit request is answered from the first listed worktree
   that it means: with the directory of the project there if the worktree offers it, and as
   unavailable if it does not.  It is unregistered exactly if it means no listed worktree.
   */
  lemma ResolveExactly(fs: FileSystem, path: string, configured: string, ws: seq<Worktree>, repo: string,
                       configuredRoot: string, root: string, relative: string)
    requires Still(fs) && path != "" && '\0' !in path && Absolute(path)
    requires Canonicalize(fs(0), configured) == Some(configuredRoot) && configuredRoot in fs(0).dirs
    requires Canonicalize(fs(0), repo) == Some(root) && Relative(configuredRoot, root) == Some(relative)
    ensures AnswersFirstMeant(fs(0), path, relative, ws, configuredRoot,
                              Resolve(fs, Some(path), configured, Answer(ws), Answer(repo)))
  {
    assert fs(1) == fs(0) && fs(3) == fs(0);
    ResolveLooksUp(fs, path, configured, ws, repo, configuredRoot, root, relative);
    AmongExactly(fs, path, configuredRoot, relative, ws);
  }

  /**
   A linked worktree is found by any alias of its project directory: here the alias and the
   directory have one canonical name.
   */
  lemma AliasIsGranted(fs: FileSystem, alias: string, configured: string, w: Worktree, repo: string,
                       configuredRoot: string, root: string, relative: string, directory: string)
    requires Still(fs) && alias != "" && '\0' !in alias && Absolute(alias) && !w.isMain
    requires Canonicalize(fs(0), configured) == Some(configuredRoot) && configuredRoot in fs(0).dirs
    requires Canonicalize(fs(0), repo) == Some(root) && Relative(configuredRoot, root) == Some(relative)
    requires Canonicalize(fs(0), alias) == Some(directory) && Serves(fs(0), relative, w, directory)
    ensures var answer := Resolve(fs, Some(alias), configured, Answer([w]), Answer(repo));
            answer.Ok? && answer.value.targetPath == directory && !answer.value.isRoot
  {
    ResolveExactly(fs, alias, configured, [w], repo, configuredRoot, root, relative);
    assert FirstMeant(fs(0), alias, relative, [w], 0);
  }

  // ---------------------------------------------------------------- requests that are not looked up

  /**
   Without an explicit path the configured root itself is the target, if it is there and a
   directory; whatever git says is not looked at.
   */
  lemma ResolveRoot(fs: FileSystem, configured: string, listed: GitAnswer<seq<Worktree>>, repository: GitAnswer<string>)
    ensures var answer := Resolve(fs, None, configured, listed, repository);
            match Canonicalize(fs(0), configured)
            case None => answer == Err(UnavailableTarget)
            case Some(root) =>
              answer == if root in fs(1).dirs then Ok(Target(root, root, true, None)) else Err(InvalidPath)
  {
  }

  /** An explicit path that is empty, relative or has a zero character is invalid, whatever git says. */
  lemma MalformedIsInvalid(fs: FileSystem, path: string, configured: string, listed: GitAnswer<seq<Worktree>>,
                           repository: GitAnswer<string>)
    requires path == "" || '\0' in path || path[0] != '/'
    ensures Resolve(fs, Some(path), configured, listed, repository) ==
            Err(if Canonicalize(fs(0), configured).Some? then InvalidPath else UnavailableTarget)
  {
  }

  /** Outside a repository an explicit path is unregistered; any other failure of git is passed on. */
  lemma GitFailuresAreTold(fs: FileSystem, path: string, configured: string, listed: GitAnswer<seq<Worktree>>,
                           repository: GitAnswer<string>, configuredRoot: string)
    requires path != "" && '\0' !in path && Absolute(path)
    requires Canonicalize(fs(0), configured) == Some(configuredRoot) && configuredRoot in fs(1).dirs
    ensures var answer := Resolve(fs, Some(path), configured, listed, repository);
            && (listed.NotARepository? ==> answer == Err(UnregisteredTarget))
            && (listed.OtherFailure? ==> answer == Err(GitFailed))
            && (listed.Answer? && repository.NotARepository? ==> answer == Err(UnregisteredTarget))
            && (listed.Answer? && repository.OtherFailure? ==> answer == Err(GitFailed))
  {
  }

  /**
   A repository whose root is gone is unavailable; a project that does not lie in its repository,
   by components, cannot be projected anywhere.
   */
  lemma OutsideIsInvalid(fs: FileSystem, path: string, configured: string, ws: seq<Worktree>, repo: string,
                         configuredRoot: string)
    requires path != "" && '\0' !in path && Absolute(path)
    requires Canonicalize(fs(0), configured) == Some(configuredRoot) && configuredRoot in fs(1).dirs
    ensures var answer := Resolve(fs, Some(path), configured, Answer(ws), Answer(repo));
            match Canonicalize(fs(3), repo)
            case None => answer == Err(UnavailableTarget)
            case Some(root) =>
              var within := ParentDir !in Components(configuredRoot) && Identity(root) <= Identity(configuredRoot);
              Absolute(root) && !within ==> answer == Err(InvalidPath)
  {
    var root := Canonicalize(fs(3), repo);
    if root.Some? && Absolute(root.value) {
      IdentityOfText(root.value);
      WithinIsPrefix(configuredRoot, root.value);
      RelativeIffWithin(configuredRoot, root.value);
    }
  }
}
