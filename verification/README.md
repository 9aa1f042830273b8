# dam-hopper: verified core

A Dafny model of the parts of dam-hopper whose correctness is hardest to see by reading, with
proofs about every input, every run or every reachable state.

- **The discovery cache** (`CacheMachine`, `CacheInvariant`, `CacheSteps`, `CacheTheorems`,
  `CacheAge`, `CacheContents`, `CacheFairness`, `CacheStore`, `CacheExample`).  The resolver's cache of worktree listings, its two-part
  generation and its two async locks, as a step machine.  Any number of refreshes, reads and
  invalidations interleave; the locks queue their requests first in, first out; the global part of
  a generation is loaded before the project lock is awaited, as in the source; and an operation may
  be dropped at any of its waits, as a tokio future may be.  `CacheStore` holds the same fields as
  an object and proves that its operations, run without interruption, do what the machine's steps
  do one after the other.
- **Lexical paths** (`PathText`, `PathNormal`, `PathTargets`).  `Path::components`, `PathBuf::push`
  and `PathBuf::pop` on POSIX strings, the normalization loop, string-based containment, relative
  paths and the projection of a project into a worktree, each related to component lists.
- **Target resolution** (`TargetResolution`).  `resolve` over a file system that may change between
  any two accesses.
- **The browser bridge** (`JsValues`, `Protocol`, `ProtocolStrict`, `CssText`, `PageText`,
  `Selections`, `SelectionFields`, `Locators`, `Bridge`, `BridgeRuns`, `BridgeTheorems`,
  `BridgeEffects`, `Observers`).  The protocol's validators on arbitrary JavaScript
  values, what the picker and the console observer produce, the message handler with its picker
  and channel as an object and as a step function, and the wrapper chains of the observers.
  Strings are sequences of UTF-16 code units.
- **The log redactor** (`Redactor`, `RedactorTheorems`, `RedactorSharing`).  The walk over an
  arbitrary object graph, cyclic or shared, that threads the set of containers it has entered.

`dafny verify dfyconfig.toml` checks everything.

## What the proofs found

- *A dropped invalidation.*  "Every cached entry carries the current generation" holds in every
  reachable state without a writer, except for an entry whose invalidation was dropped between its
  bump and its eviction and whose key nothing has stored or invalidated since.
  `CacheTheorems.EntryIsCurrentUnlessAbandoned` is the exact condition, on the labels of the run, and
  `CacheExample.DroppedInvalidationLeavesEntry` a run that shows it.  Freshness with respect to
  completed invalidations is not affected.
- *The recheck after a cache hit.*  Because the two parts of a generation are read at different
  times and `invalidate_all` restarts the project counters, equal generations after a hit rule out
  an invalidation in between if and only if the global counter did not move during the second read
  (`CacheTheorems.RecheckIsSound`); `CacheExample.RecheckMissesInvalidation` is a run in which it
  did.  The answer is still fresh as of the cache read.
- *Climbing above the start.*  `normalize_target_path` leads to the same place as the path if and only
  if the path is absolute or climbs above its start at most once: each further `..` undoes the one
  before, so `../../a` becomes `a` (`PathNormal.NormalizeMeaning`, `PathNormal.ClimbingTwiceIsLost`).
- *Climbing above the root.*  Absolute paths that lead to the same place have the same identity if
  and only if their climbs above the root have the same parity; `/../a` and `/a` differ
  (`PathNormal.SamePlaceSameIdentity`, `PathNormal.RootClimbSplitsIdentity`).
- *The tag name `constructor`.*  The role table is an object literal, so the lookup for this tag
  finds a function.  Such a selection cannot be posted; the bridge reports `selection_failed`
  instead (`Selections.SelectionAccepted`, `BridgeEffects.ClickIsAnswered`).
- *Control characters in tag names.*  An HTML parser keeps U+0001 in a tag name, and a locator shows
  the tag names of the elements around the selected one, so the selection of a `b` inside such an
  element is rejected (`Selections.LocatorIsCleanExactly`, `Selections.ControlTagRejected`).
- *An origin that cannot be a target.*  `postMessage` throws for a target origin that is no URL, such
  as `null`; a connect from such an origin, where the options allow it, takes over without an answer
  (`BridgeEffects.ConnectIsAnswered`).
- *An empty parent origin* counts as unset in the bridge: nothing is posted to it, and the next
  allowed connect replaces it.  A set origin is kept until destroy in every run if and only if the
  options do not allow the empty origin along with another one (`BridgeTheorems.OriginIsKeptExactly`).
- *`[Circular]`* also marks containers that are merely shared
  (`RedactorSharing.SharedIsMarkedCircular`); the copy is the plain one exactly if no container is
  reached twice.  A property named `__proto__` is lost (`RedactorTheorems.KeptExactly`,
  `RedactorTheorems.ProtoIsLost`).

## Model

| member | source | states |
|---|---|---|
| `CacheSteps.RunKeeps` | server/src/workspace_target.rs:397-546 | the inductive invariant (lock ownership, pending invalidations, cached entries, every operation's knowledge) holds in every state of every run |
| `CacheContents.CachedWorktreesIsCorrect` | server/src/workspace_target.rs:460-490 | every listing that `cached_worktrees` answers is what git listed to a discovery of that key, in one step of the run; there is an instant inside the call such that this discovery began after every invalidation of the key, or of everything, that had completed by then |
| `CacheContents.AnswerIsWhatGitListed` | server/src/workspace_target.rs:397-490 | every listing that `refresh` or `cached_worktrees` answers, in any run, is the one that git gave in an earlier step to a discovery of that key |
| `CacheContents.EntryIsWhatGitListed` | server/src/workspace_target.rs:492-533 | so is every cached entry |
| `CacheContents.FailureIsGits` | server/src/workspace_target.rs:418-436 | an operation fails only if git failed in a step of its own discovery of that key |
| `CacheContents.YoungHitIsAnswered` | server/src/workspace_target.rs:460-480 | the cache is used: a call that found an entry younger than the time to live answers with it, if no invalidation of its key took effect since its round began |
| `CacheTheorems.CachedWorktreesIsFresh` | server/src/workspace_target.rs:460-490 | there is an instant inside the call such that the answer's discovery of that key began after every invalidation of the key, or of everything, that had completed by then, so in particular before the call began |
| `CacheAge.AnswersAreRecent` | server/src/workspace_target.rs:460-490 | every answer comes from a discovery of that key that began during the call, or was stored by a step less than the time to live before a step of the call |
| `CacheAge.EntryWasStored` | server/src/workspace_target.rs:492-533 | every cached entry, with its time and listing, was stored by an earlier step |
| `CacheTheorems.UnavailableNeedsThreeInvalidations` | server/src/workspace_target.rs:460-490 | the call gives up only if three invalidations by three different operations took effect on its key during the call |
| `CacheExample.ThreeInvalidationsSuffice` | server/src/workspace_target.rs:460-490 | the bound is tight: a run of one call and three invalidations in which the call gives up |
| `CacheTheorems.EntryIsCurrentUnlessAbandoned` | server/src/workspace_target.rs:438-456 | while no invalidator holds the write lock, an entry's generation is the current one, and no invalidation of its key took effect since that generation was read, if and only if no invalidation of the key was dropped half-way and left behind; every entry postdates every completed invalidation |
| `CacheTheorems.StoreIsUndisturbed` | server/src/workspace_target.rs:492-520 | at every store no invalidation of the key took effect since the generation that the listing depends on was read, which was before its discovery began |
| `CacheTheorems.AbandonedMeansDropped` | server/src/workspace_target.rs:438-456 | the history's abandoned keys are exactly those of which, while cached, an invalidation was dropped between bump and eviction since when no step stored the key or completed an invalidation of it |
| `CacheExample.DroppedInvalidationLeavesEntry` | server/src/workspace_target.rs:438-448 | a run in which an invalidation is dropped while it waits for a reader and that ends with free locks and an entry of an old generation |
| `CacheTheorems.RecheckIsSound` | server/src/workspace_target.rs:467-478 | equal generations after a hit mean that no invalidation took effect since the round's first read if and only if the global counter did not move between the two parts of the second read |
| `CacheExample.RecheckMissesInvalidation` | server/src/workspace_target.rs:467-478 | a run in which that check passes although an invalidation of everything took effect and completed since the round's first read |
| `CacheTheorems.SecondCheckAgrees` | server/src/workspace_target.rs:498-514 | the second generation check of a store never disagrees with the first |
| `CacheTheorems.SomeoneCanAct` | server/src/workspace_target.rs:438-546 | deadlock freedom: in every reachable state with an unfinished operation some operation can step |
| `CacheTheorems.WorkIsBounded` | server/src/workspace_target.rs:438-546 | in every run each operation takes at most 84 steps, whatever the others do |
| `CacheTheorems.RunsAreBounded` | server/src/workspace_target.rs:438-546 | every run takes at most 84 steps for each operation it starts |
| `CacheTheorems.StuckMeansDone` | server/src/workspace_target.rs:438-546 | where nobody can step any more, every operation has finished |
| `CacheFairness.NoOvertaking` | server/src/workspace_target.rs:397-546 | in every run, while one operation waits for a lock, no operation that asks for it later gets it |
| `CacheTheorems.CacheIsBounded` | server/src/workspace_target.rs:522-532 | the cache never holds more than the maximal number of entries |
| `CacheTheorems.NewestSurvives` | server/src/workspace_target.rs:522-532 | an eviction that may keep one entry keeps a strictly newest one |
| `CacheTheorems.StoredEntrySurvives` | server/src/workspace_target.rs:492-533 | with room for one entry and an advancing clock the entry just stored is there after the step, and every evicted entry is no newer than every survivor |
| `CacheTheorems.SurvivorsExist` | server/src/workspace_target.rs:522-532 | the eviction always has a possible outcome |
| `CacheStore.WorkspaceTargetResolver.constructor` | server/src/workspace_target.rs:317-341 | a new resolver shows the machine's initial memory |
| `CacheStore.WorkspaceTargetResolver.GenerationFor` | server/src/workspace_target.rs:535-546 | without interruption between its two reads, the pair read is the machine's current generation of the key |
| `CacheStore.WorkspaceTargetResolver.Invalidate` | server/src/workspace_target.rs:438-448 | without interruption, the fields move as the machine's bump and eviction of one key |
| `CacheStore.WorkspaceTargetResolver.InvalidateAll` | server/src/workspace_target.rs:451-456 | without interruption, the fields move as the machine's global bump, reset and eviction of everything |
| `CacheStore.WorkspaceTargetResolver.StoreIfCurrent` | server/src/workspace_target.rs:492-533 | without interruption, the entry is stored and the oldest are evicted exactly if the observed generation is current; otherwise nothing changes |
| `CacheStore.WorkspaceTargetResolver.EvictOldest` | server/src/workspace_target.rs:522-532 | the loop ends with the prescribed number of entries, unchanged, none of the removed ones newer than a survivor |
| `PathNormal.NormalizeTargetPath` | server/src/workspace_target.rs:780-798 | the push and pop loop computes the text of the normalized components |
| `PathText.LeadingDot` | server/src/workspace_target.rs:780-798 | a path has a `.` component exactly if it begins with one |
| `PathNormal.NormalizeIsForm` | server/src/workspace_target.rs:780-798 | a normalized path is the root if there was one, one `..` if the number of climbs is odd, and the names the path means |
| `PathNormal.NormalizeTwice` | server/src/workspace_target.rs:780-798 | idempotent on every component list that a path can have |
| `PathNormal.NormalizeTextTwice` | server/src/workspace_target.rs:780-798 | idempotent on every path string |
| `PathNormal.NormalizeMeaning` | server/src/workspace_target.rs:780-798 | the names are kept; the place the path leads to, with `..` staying at the root, is kept if and only if the path is absolute or climbs above its start at most once |
| `PathNormal.SameIdentityExactly` | server/src/workspace_target.rs:780-798 | two paths normalize alike if and only if both or neither are absolute, they mean the same names and their climbs have the same parity |
| `PathNormal.SamePlaceSameIdentity` | server/src/workspace_target.rs:780-798 | absolute paths to the same place have the same identity if and only if their climbs have the same parity |
| `PathNormal.RootClimbSplitsIdentity` | server/src/workspace_target.rs:787-791 | `/../a` and `/a` lead to the same place and have different identities |
| `PathNormal.NormalizeDots` | server/src/workspace_target.rs:780-798 | no `.` remains, and `..` remains if and only if the number of climbs is odd |
| `PathNormal.ClimbingTwiceIsLost` | server/src/workspace_target.rs:787-791 | `../../a` normalizes to `a` |
| `PathNormal.NormalizeJoin` | server/src/workspace_target.rs:780-798 | normalizing a concatenation continues from the normalized left part |
| `PathNormal.IdentityOfPush` | server/src/workspace_target.rs:684-692 | joining a relative text continues normalization from the identity of the left part, also of an empty one |
| `PathNormal.JoinDependsOnIdentity` | server/src/workspace_target.rs:780-798 | for all paths, the identity of a join depends only on the identity of its left part |
| `PathNormal.IdentityOfText` | server/src/workspace_target.rs:804-835 | the text of an identity reads back as that identity, and is absolute exactly if the path is |
| `PathTargets.WithinIsPrefix` | server/src/workspace_target.rs:840-853 | the string test is the prefix relation on normalized components, for every pair of paths, with its one exception spelled out |
| `PathTargets.WithinIsReflexive` | server/src/workspace_target.rs:840-853 | every path is within itself |
| `PathTargets.WithinIsTransitive` | server/src/workspace_target.rs:840-853 | containment is transitive on all paths |
| `PathTargets.WithinIsAntisymmetric` | server/src/workspace_target.rs:840-853 | paths within each other have the same identity |
| `PathTargets.PrefixOfText` | server/src/workspace_target.rs:840-853 | with a separator, text prefixes are exactly component prefixes, so siblings that share a name prefix are told apart |
| `PathTargets.RelativeIffWithin` | server/src/workspace_target.rs:858-880 | a relative path exists exactly for paths without `..` that are within the root |
| `PathTargets.RelativeIsRest` | server/src/workspace_target.rs:858-880 | the relative path is the text of the components below the root |
| `PathTargets.ProjectionAppends` | server/src/workspace_target.rs:684-692 | a projection's identity is that of the worktree root followed by the relative names |
| `PathTargets.RepositoryProjectsBack` | server/src/workspace_target.rs:665-692 | the repository's own root projects back to the configured root |
| `PathTargets.ProjectionIsInjective` | server/src/workspace_target.rs:665-692 | two roots project to the same target if and only if they have the same identity |
| `PathTargets.RelativeOfProjection` | server/src/workspace_target.rs:858-880 | extracting from a projection gives back the projected names, unless the root itself has a `..` |
| `TargetResolution.ResolveIsSound` | server/src/workspace_target.rs:343-394 | however the file system changes between accesses, an accepted explicit path yields the canonical directory of a listed worktree that is not bare, not prunable and available, at the place of the configured project in it, inside its canonical non-symlink root at the final accesses, and the path names it, lexically or canonically |
| `TargetResolution.ResolveAnswersTheRequest` | server/src/workspace_target.rs:758-775 | while nothing changes, that directory is the requested one, by its own or its canonical name |
| `TargetResolution.ResolveExactly` | server/src/workspace_target.rs:343-394 | while nothing changes, an explicit path is answered by the first listed worktree it means (by the lexical or canonical name of the project's place in it, the main worktree only by that place's own name): its canonical directory if it serves one, unavailable if not, and unregistered exactly if no worktree is meant |
| `TargetResolution.AliasIsGranted` | server/src/workspace_target.rs:758-775 | a path that leads to a linked worktree's directory through another name is granted |
| `TargetResolution.ResolveRoot` | server/src/workspace_target.rs:343-352 | without an explicit path the configured root is the target, exactly if it is there and a directory |
| `TargetResolution.MalformedIsInvalid` | server/src/workspace_target.rs:354-361 | an empty or relative path, or one with a zero character, is invalid whatever git says |
| `TargetResolution.GitFailuresAreTold` | server/src/workspace_target.rs:343-394 | outside a repository a path is unregistered; other failures of git are passed on |
| `TargetResolution.OutsideIsInvalid` | server/src/workspace_target.rs:665-681 | a repository whose root is gone is unavailable; a project outside its repository is invalid |
| `TargetResolution.LiveTargetIsLive` | server/src/workspace_target.rs:548-573 | a live target is contained in its worktree's root, by components, at the final accesses |
| `Protocol.ParseCommandExact` | packages/browser-bridge/src/protocol.ts:258-280 | a value is parsed as a command if and only if it is the encoding of that well-formed command |
| `Protocol.AcceptsExactly` | packages/browser-bridge/src/protocol.ts:282-357 | the encoding of an event is accepted if and only if every part is within its bounds |
| `ProtocolStrict.CommandStrict` | packages/browser-bridge/src/protocol.ts:258-280 | of all JavaScript values exactly the four-key records of version 1 with a known type and readable identifiers are commands |
| `ProtocolStrict.SelectionStrict` | packages/browser-bridge/src/protocol.ts:204-256 | of all JavaScript values the validator accepts exactly the encodings of selections with a well-formed tag, readable texts, allowed attribute names and finite bounds within limits |
| `ProtocolStrict.EventsStrict` | packages/browser-bridge/src/protocol.ts:282-357 | of all JavaScript values the parser accepts exactly the encodings of events within bounds, and of ready events without capabilities |
| `ProtocolStrict.EncodingIsInjective` | packages/browser-bridge/src/protocol.ts:282-357 | different events have different encodings |
| `CssText.CodePointsExactly` | packages/browser-bridge/src/picker.ts:76-83 | splitting a string into code points loses nothing and leaves no surrogate pair apart |
| `CssText.EscapeRoundTrip` | packages/browser-bridge/src/picker.ts:76-83 | decoding an escape by section 4.3.7 of CSS Syntax Module Level 3 gives the code points of the string, with U+FFFD for each zero and lone surrogate, so it undoes the escape if and only if there are none |
| `CssText.DecodeEscapes` | packages/browser-bridge/src/picker.ts:76-83 | on every string, decoding an escape gives each code point or its replacement character |
| `CssText.EscapeAgain` | packages/browser-bridge/src/picker.ts:76-83 | escaping undoes decoding on escapes of such strings |
| `CssText.EscapeIsClean` | packages/browser-bridge/src/picker.ts:76-83 | an escape never contains control characters |
| `PageText.BoundedTextExactly` | packages/browser-bridge/src/picker.ts:48-59 | the text of a value is its words, one U+0020 apart, cut to the limit; there is none exactly if the value is missing, has a forbidden character or has no words |
| `PageText.WordsExactly` | packages/browser-bridge/src/picker.ts:56 | the words of a value are its maximal runs of characters that are no spaces, in order |
| `PageText.ShownIsTidy` | packages/browser-bridge/src/picker.ts:56 | before it is cut, the text has no space but single U+0020 between other characters, and the words of the value |
| `PageText.BoundedTextIsBounded` | packages/browser-bridge/src/picker.ts:48-59 | text that is let through is not empty, within its limit and free of control characters |
| `PageText.TrimExactly` | packages/browser-bridge/src/browser-observers.ts:39 | trimming takes the spaces off both ends and nothing else |
| `SelectionFields.SelectionDescribes` | packages/browser-bridge/src/picker.ts:148-205 | a selection says of its element exactly: tag name, role (explicit, by input type, or by the table), the first label, the text unless the user may have typed it, the allowed attributes, the locator, and each side of its rectangle clamped for itself |
| `SelectionFields.LocatorPartNames` | packages/browser-bridge/src/picker.ts:100-127 | the part for an element is its first test attribute with a text, else its id, both escaped so that they read back, else its tag name and place among its siblings |
| `SelectionFields.MessageSays` | packages/browser-bridge/src/browser-observers.ts:20-41 | a console message is the first four previews, one space apart, control characters turned into spaces, redacted, trimmed and cut, or the empty message |
| `Selections.LocatorFor` | packages/browser-bridge/src/picker.ts:129-146 | the upward loop joins the parts of the nearest six elements, outermost first, cut to its limit |
| `Selections.LocatorIsBounded` | packages/browser-bridge/src/picker.ts:129-146 | every locator is within its limit, and not empty if the element has a tag name |
| `Selections.LocatorIsCleanExactly` | packages/browser-bridge/src/picker.ts:100-146 | a locator that is not cut is free of control characters if and only if the tag names it shows are; cutting never adds any |
| `Selections.CollectAttributes` | packages/browser-bridge/src/picker.ts:85-98 | the loop collects all allowed attributes; its limit never cuts it short |
| `Selections.AttributesAreExact` | packages/browser-bridge/src/picker.ts:85-98 | an attribute is collected, with its own words up to 128 characters, if and only if it is allowed and has a text to show |
| `Selections.SelectionAccepted` | packages/browser-bridge/src/picker.ts:174-205 | for all attributes, texts, bounds and ancestors, the validator accepts an element's selection if and only if its tag name is well-formed, the role lookup finds no function and its locator shows no control character |
| `Selections.ControlTagRejected` | packages/browser-bridge/src/picker.ts:100-146 | a `b` inside an element whose tag name has a control character is rejected |
| `Selections.ConstructorElementRejected` | packages/browser-bridge/src/picker.ts:148-161 | an element with the well-formed tag name `constructor` is rejected |
| `Selections.ConsoleMessageAccepted` | packages/browser-bridge/src/browser-observers.ts:20-41 | every console message is within the protocol's bounds, whatever was logged |
| `Locators.LocatorIsUnique` | packages/browser-bridge/src/picker.ts:100-146 | in any tree whose root type occurs once, the locator of an element within the depth limit matches that element and no other, under sections 6.6.5.4 and 8.2 of Selectors Level 3 |
| `Locators.TextDetermines` | packages/browser-bridge/src/picker.ts:124-145 | the text of a locator stands for one selector only |
| `Locators.LocatorTextIsUnique` | packages/browser-bridge/src/picker.ts:129-146 | hence the text that the picker writes finds its element and no other |
| `Bridge.BrowserBridge.constructor` | packages/browser-bridge/src/index.ts:59-70 | an installed bridge starts in the initial configuration |
| `Bridge.BrowserBridge.PostEvent` | packages/browser-bridge/src/index.ts:71-73 | an event is posted to the parent origin exactly if it is set, not empty, a target that `postMessage` takes, and the channel is open |
| `Bridge.BrowserBridge.OnMessage` | packages/browser-bridge/src/index.ts:141-207 | the handler makes the step that the machine prescribes |
| `Bridge.BrowserBridge.OnClick` | packages/browser-bridge/src/picker.ts:278-295 | so does the click handler |
| `Bridge.BrowserBridge.OnKeyDown` | packages/browser-bridge/src/picker.ts:297-302 | so does the key handler |
| `Bridge.BrowserBridge.Start` | packages/browser-bridge/src/picker.ts:305-332 | so does starting the picker, with its failures |
| `Bridge.BrowserBridge.OnNavigate` | packages/browser-bridge/src/index.ts:89-103 | so does a navigation |
| `Bridge.BrowserBridge.OnConsole` | packages/browser-bridge/src/index.ts:104-115 | so does a console call |
| `Bridge.BrowserBridge.DestroyOnce` | packages/browser-bridge/src/index.ts:212-223 | so does destroy, also when called again |
| `BridgeRuns.RunKeeps` | packages/browser-bridge/src/index.ts:59-225 | the invariant that ties the state to the log of accepted commands and posted events holds after every run |
| `BridgeTheorems.SetTogether` | packages/browser-bridge/src/index.ts:63-65 | nonce, request and parent origin are all set or all unset, and unset once destroyed |
| `BridgeTheorems.EventsAreAddressed` | packages/browser-bridge/src/index.ts:71-73 | every event of every run goes to an origin that events can reach, that of the last accepted connect before it, with that connect's nonce, and before any destroy; the origin is the configured one if there is one, else a listed one or that of a loopback host over plain HTTP |
| `BridgeTheorems.ConnectsAreAdmitted` | packages/browser-bridge/src/index.ts:36-56 | every accepted connect of every run comes from the parent and from such an origin |
| `BridgeTheorems.EventsAnswerTheLastCommand` | packages/browser-bridge/src/index.ts:141-207 | every event carries the nonce and the request of the last accepted command before it |
| `BridgeTheorems.OneTarget` | packages/browser-bridge/src/index.ts:146-148 | all events of a run go to one origin |
| `BridgeTheorems.OriginIsKeptExactly` | packages/browser-bridge/src/index.ts:36-56 | in every run a set parent origin is kept until destroy, if and only if the options do not admit the empty origin along with another one |
| `BridgeTheorems.OriginIsKept` | packages/browser-bridge/src/index.ts:146-155 | whatever the options, a parent origin that is set and not empty is kept until destroy |
| `BridgeTheorems.EmptyOriginIsReplaced` | packages/browser-bridge/src/index.ts:146-155 | where the origin is unset or empty, the next allowed connect sets its own |
| `BridgeTheorems.SecondConnectReplaces` | packages/browser-bridge/src/index.ts:146-155 | two connects, the first from an allowed empty origin, give a run in which the origin changes |
| `BridgeTheorems.NothingAfterDestroy` | packages/browser-bridge/src/index.ts:212-223 | after destroy nothing changes and nothing is posted, whatever messages, clicks, navigations or console calls still come |
| `BridgeTheorems.AcceptedExactly` | packages/browser-bridge/src/index.ts:141-168 | a message is acted on if and only if it encodes a well-formed command, from the parent, from the connected origin if one is set, and from an admitted origin (a connect) or with the connection's nonce (any other command); otherwise nothing changes |
| `BridgeTheorems.AcceptedInRuns` | packages/browser-bridge/src/index.ts:141-168 | in every run the same, told on the log: so every connect from the parent and an admitted origin is accepted while no other origin is set |
| `BridgeEffects.ConnectIsAnswered` | packages/browser-bridge/src/index.ts:151-166 | in every run an accepted connect takes over nonce, request and origin, disarms the picker, and is answered by the given capabilities, or else by both exactly if the options name a parent, and by the address if navigation is offered, exactly if events can reach its origin |
| `BridgeEffects.StartArms` | packages/browser-bridge/src/index.ts:167-181 | in every run an accepted start arms the picker if it can, and else reports why it cannot |
| `BridgeEffects.OtherCommandsDisarm` | packages/browser-bridge/src/index.ts:182-207 | in every run any other accepted command disarms the picker; going back, forward and reloading are carried out exactly if navigation is offered |
| `BridgeEffects.NavigationIsSent` | packages/browser-bridge/src/index.ts:89-103 | in every run a navigation is sent, to the connected origin with its nonce and the last request, exactly if offered, connected and reachable |
| `BridgeEffects.ConsoleIsSent` | packages/browser-bridge/src/index.ts:104-115 | in every run so is a console call, with its own level and what it says |
| `BridgeEffects.EscapeDisarms` | packages/browser-bridge/src/picker.ts:297-302 | in every run a key disarms the picker exactly if it is Escape |
| `BridgeEffects.ClickIsAnswered` | packages/browser-bridge/src/picker.ts:278-295 | in every run a click on an element does nothing unless the picker is armed; then it disarms and, if events can reach the parent, is answered by exactly one event: the description of the element, or an error if it could not be collected or copied |
| `BridgeEffects.SelectionsDescribe` | packages/browser-bridge/src/picker.ts:174-205 | every selection of every run describes the element of a click |
| `BridgeTheorems.SelectionFollowsItsStart` | packages/browser-bridge/src/index.ts:118-207 | the last accepted command before a selection is a start whose nonce and request it carries, and no other selection lies between |
| `BridgeTheorems.SelectionsAreStarted` | packages/browser-bridge/src/picker.ts:266-331 | selections, plus one while armed, never outnumber accepted starts |
| `BridgeTheorems.EventsAreAccepted` | packages/browser-bridge/src/protocol.ts:282-357 | in every run the parent's parser accepts every console and error event, a ready event exactly if at most two capabilities are reported, a navigation exactly if its address is bounded, a selection exactly if the clicked tag is well-formed and its locator shows no control character |
| `Observers.Host.Observe` | packages/browser-bridge/src/browser-observers.ts:77-98 | the loop wraps every observed method around what was there and remembers it |
| `Observers.Host.Restore` | packages/browser-bridge/src/browser-observers.ts:107-116 | the loop puts back exactly those methods that still are this observer's wrapper |
| `Observers.EveryCallOnce` | packages/browser-bridge/src/browser-observers.ts:89-98 | after any installs, uninstalls and page wrappers a call runs the native method first and once, each remaining layer once and no other layer |
| `Observers.LiveLayerIsCalled` | packages/browser-bridge/src/browser-observers.ts:77-117 | an observer that was not uninstalled gets every later call exactly once |
| `Observers.UninstallTakesOffTheTop` | packages/browser-bridge/src/browser-observers.ts:67-73 | an uninstall removes its layer if and only if it is outermost, and no other layer |
| `Observers.PresentExactly` | packages/browser-bridge/src/browser-observers.ts:67-116 | after any run a method has a layer if and only if it was installed and never uninstalled while outermost |
| `Observers.RemovedLayerStaysAway` | packages/browser-bridge/src/browser-observers.ts:107-116 | a layer taken off never returns and gets no later call |
| `Observers.ConsoleIsMirroredOnce` | packages/browser-bridge/src/browser-observers.ts:77-117 | a call of any of the five console methods logs once and is mirrored once by exactly the observers that remain |
| `Observers.NavigationIsPublishedOnce` | packages/browser-bridge/src/browser-observers.ts:44-74 | likewise for `pushState` and `replaceState` |
| `Observers.NewHost` | packages/browser-bridge/src/browser-observers.ts:3 | the observed methods are distinct and start as the host's own |
| `Observers.Nested` | packages/browser-bridge/src/browser-observers.ts:107-116 | properly nested uninstalls restore every method |
| `Redactor.Walk.RedactValue` | packages/shared/src/logger.ts:100-132 | the walk that updates one set computes the copy and the set that the walk threading it prescribes, and terminates on every graph |
| `Redactor.Walk.RedactArray` | packages/shared/src/logger.ts:121-123 | so does its part over items |
| `Redactor.Walk.RedactObject` | packages/shared/src/logger.ts:125-131 | so does its part over properties |
| `Redactor.RedactLogMetadata` | packages/shared/src/logger.ts:134-136 | the whole redaction is that copy from an empty set |
| `RedactorTheorems.RedactionIsSafe` | packages/shared/src/logger.ts:100-132 | on every graph the copy nests at most eight containers, shows `[REDACTED]` for every sensitive key at every level and mirrors lengths, keys and leaves of every container it expands, with every string redacted |
| `RedactorTheorems.EveryTextIsRedacted` | packages/shared/src/logger.ts:100-132 | every text of the copy, at any level, is a marker or the redaction of a text of the graph that no sensitive key hides; names of errors are copied |
| `RedactorTheorems.ErrorIsRedacted` | packages/shared/src/logger.ts:110-116 | an error keeps its name, and shows its message and its stack, if it has one, redacted |
| `RedactorTheorems.KeptExactly` | packages/shared/src/logger.ts:125-130 | a property is kept if and only if it is not named `__proto__` |
| `RedactorTheorems.ProtoIsLost` | packages/shared/src/logger.ts:125-130 | an object whose only property is named `__proto__` becomes an empty one |
| `RedactorTheorems.SecretsDoNotMatter` | packages/shared/src/logger.ts:126-130 | two values that differ at most in what sensitive keys lead to and in what redaction hides of texts have the same copy and the same set of entered containers |
| `RedactorSharing.EachContainerOnce` | packages/shared/src/logger.ts:118-119 | the copy shows each container expanded at most once |
| `RedactorSharing.PlainExactlyWithoutSharing` | packages/shared/src/logger.ts:100-132 | the copy is the plain depth-capped one if no container is reached twice, and, if no container reached has a `__proto__` property, only then |
| `RedactorSharing.SharedIsMarkedCircular` | packages/shared/src/logger.ts:118-119 | a shared container without any cycle is marked circular |

## Left out

- `CacheMachine`: keys are taken as canonical, counters do not wrap around at 64 bits, the clock never runs back, and atomic orderings are sequentially consistent.
- `CacheMachine`: `refresh_project_worktrees` shares the steps of `refresh`; its projection of the result is left out.
- CacheStore.WorkspaceTargetResolver.GenerationFor: the uninterrupted execution; the source awaits a lock between its two reads, which the machine models.
- CacheStore.WorkspaceTargetResolver.Invalidate: the uninterrupted execution, without the wait between bump and eviction.
- CacheStore.WorkspaceTargetResolver.InvalidateAll: the uninterrupted execution, without the wait before the eviction.
- CacheStore.WorkspaceTargetResolver.StoreIfCurrent: the uninterrupted execution, without the wait between the two checks.
- `PathText`: Windows paths and paths that are not Unicode; `PathBuf::pop` is related to components only on buffers that the loop can build.
- `TargetResolution`: git and canonicalization are inputs; target keys (hashing) and serialization are not part of this model.
- `Protocol`: property order, getters, symbols and prototype chains of message objects.
- `Selections`: the previews of console arguments are inputs; the regular expressions that redact console messages and the browser's own `CSS.escape` are functions; where it matters they are only known to add no control characters.
- `Locators`: documents of one namespace without shadow roots; elements on the path have no id or test attribute, because such parts name elements by what the page says is unique.
- `Bridge`: the default post-message channel only; URL parsing is a function; `postMessage` fails only for values that cannot be cloned and for targets that are no URL; that such a failure surfaces as an exception in the page's own console or history call is not modelled; outline painting and pointer tracking are not part of this model.
- `Observers`: a page wrapper is assumed to call what it wraps once; event listeners for errors, popstate and hashchange are left out.
- RedactorSharing.PlainExactlyWithoutSharing: the converse is stated for graphs without reached `__proto__` properties, because what is lost from the copy cannot show a difference.
- `Redactor`: `redactString` and the key pattern are functions; getters, symbol keys and array holes are left out; what assigning to `__proto__` does to the copy's prototype is not modelled.
- Log levels, sinks and configuration of the logger, the HTTP server, SSH, system information and the user interface are not part of this model.
