/** What holds of every run of the discovery cache. */
module CacheTheorems {
  import opened Prelude
  import opened CacheMachine
  import opened CacheInvariant
  import opened CacheSteps

  // ---------------------------------------------------------------- what a step does, told from outside

  ghost predicate ActsAt(s: State, l: Label, pc: Pc) {
    l.Act? && l.tid in s.ops && s.ops[l.tid].pc == pc
  }

  /** An invalidation that concerns `k` takes effect: its generation counter moves. */
  ghost predicate TakesEffect(s: State, l: Label, k: Key) {
    ActsAt(s, l, At(InvGens, Held)) && Covers(ScopeOf(s.ops[l.tid].task), k)
  }

  /** An invalidation that concerns `k` completes: it has evicted and releases its locks. */
  ghost predicate Completes(s: State, l: Label, k: Key) {
    ActsAt(s, l, At(InvCache, Held)) && Covers(ScopeOf(s.ops[l.tid].task), k)
  }

  /** A discovery for `k` begins. */
  ghost predicate StartsDiscovery(s: State, l: Label, k: Key) {
    ActsAt(s, l, DiscoverStart) && KeyOf(s.ops[l.tid].task) == k
  }

  /** An invalidation that concerns `k` is dropped between its bump and its eviction. */
  ghost predicate DropsInvalidation(s: State, l: Label, k: Key) {
    l.Drop? && l.tid in s.ops && s.ops[l.tid].pc == At(InvCache, Queued) && Covers(ScopeOf(s.ops[l.tid].task), k)
  }

  lemma BumpHistory(m: Memory, task: Task, k: Key)
    requires task.Invalidate? || task.InvalidateAll?
    ensures var m' := if task.InvalidateAll? then BumpGlobal(m) else BumpKey(m, task.key);
            && Version(m', k) == Version(m, k) + (if Covers(ScopeOf(task), k) then 1 else 0)
            && DoneAt(m', k) == DoneAt(m, k)
  {
  }

  lemma EvictHistory(m: Memory, task: Task, k: Key)
    requires TimesOk(m, k) && (task.Invalidate? || task.InvalidateAll?)
    ensures var m' := if task.InvalidateAll? then EvictAll(m) else EvictKey(m, task.key);
            && Version(m', k) == Version(m, k)
            && DoneAt(m', k) == if Covers(ScopeOf(task), k) then m.now + 1 else DoneAt(m, k)
  {
  }

  lemma ActHistory(m: Memory, op: Op, env: Env, k: Key)
    requires TimesOk(m, k) && PcFits(op.task, op.pc) && env.time >= m.clock
    requires forall t :: t in m.discoveries ==> t <= m.now
    ensures var m', hit := NextMem(m, op, env), Covers(ScopeOf(op.task), k);
            && Version(m', k) == Version(m, k) + (if op.pc == At(InvGens, Held) && hit then 1 else 0)
            && DoneAt(m', k) == if op.pc == At(InvCache, Held) && hit then m.now + 1 else DoneAt(m, k)
  {
    if op.pc == At(InvGens, Held) {
      BumpHistory(m, op.task, k);
    } else if op.pc == At(InvCache, Held) {
      EvictHistory(m, op.task, k);
    } else if op.pc != Clearing {
      OthersAreQuiet(m, op, env);
    }
  }

  lemma ActDiscoveries(m: Memory, op: Op, env: Env)
    ensures NextMem(m, op, env).discoveries ==
            if op.pc == DiscoverStart then m.discoveries[m.now + 1 := KeyOf(op.task)] else m.discoveries
  {
    if op.pc.At? && op.pc.stage == Held {
      HeldDiscoveries(m, op, env, op.pc.place);
    }
  }

  lemma HeldDiscoveries(m: Memory, op: Op, env: Env, place: Place)
    requires op.pc == At(place, Held)
    ensures NextMem(m, op, env).discoveries == m.discoveries
  {
    if place == InvGens || place == InvCache {
      assert BumpGlobal(m).discoveries == BumpKey(m, KeyOf(op.task)).discoveries == m.discoveries;
      assert EvictAll(m).discoveries == EvictKey(m, KeyOf(op.task)).discoveries == m.discoveries;
    }
  }

  /** What a step of an operation leaves abandoned: all but what it stores or evicts. */
  lemma ActAbandons(m: Memory, op: Op, env: Env, k: Key)
    requires op.pc == At(StoreCache, Held) ==> StillCurrent(m, op)
    ensures k in NextMem(m, op, env).abandoned <==>
            && k in m.abandoned
            && !(op.pc == At(StoreCache, Held) && KeyOf(op.task) == k)
            && !(op.pc == At(InvCache, Held) && Covers(ScopeOf(op.task), k))
  {
    if ChangeOf(op).Some? {
      assert BumpGlobal(m).abandoned == BumpKey(m, KeyOf(op.task)).abandoned == ClearGens(m).abandoned == m.abandoned;
    } else if op.pc != At(StoreCache, Held) {
      OthersAbandonNothing(m, op, env);
    }
  }

  lemma OthersAbandonNothing(m: Memory, op: Op, env: Env)
    requires ChangeOf(op) == None && op.pc != At(StoreCache, Held)
    ensures NextMem(m, op, env).abandoned == m.abandoned
  {
  }

  /** Neither the passing of time nor giving up is an invalidation. */
  lemma QuietHistory(m: Memory, time: nat, k: Key)
    ensures Version(Tick(m, time), k) == Version(m, k) && DoneAt(Tick(m, time), k) == DoneAt(m, k)
    ensures Version(Abandon(m), k) == Version(m, k) && DoneAt(Abandon(m), k) == DoneAt(m, k)
  {
  }

  lemma StepHistory(cfg: Config, s: State, l: Label, s': State, k: Key)
    requires TimesOk(s.mem, k) && OpsOk(s.mem, s.ops) && Step(cfg, s, l, s')
    requires forall t :: t in s.mem.discoveries ==> t <= s.mem.now
    ensures Version(s'.mem, k) == Version(s.mem, k) + (if TakesEffect(s, l, k) then 1 else 0)
    ensures DoneAt(s'.mem, k) == if Completes(s, l, k) then s.mem.now + 1 else DoneAt(s.mem, k)
  {
    match l
    case Spawn(_, _) => QuietHistory(s.mem, s.mem.clock, k);
    case Act(tid, env) => StepOfHistory(cfg, s, tid, env, k);
    case Drop(_) =>
      QuietHistory(s.mem, s.mem.clock, k);
      QuietHistory(Abandon(s.mem), s.mem.clock, k);
  }

  lemma StepOfHistory(cfg: Config, s: State, tid: Tid, env: Env, k: Key)
    requires TimesOk(s.mem, k) && OpsOk(s.mem, s.ops) && CanAct(cfg, s, tid, env)
    requires forall t :: t in s.mem.discoveries ==> t <= s.mem.now
    ensures var m' := DoAct(cfg, s, tid, env).mem;
            && Version(m', k) == Version(s.mem, k) + (if TakesEffect(s, Act(tid, env), k) then 1 else 0)
            && DoneAt(m', k) == if Completes(s, Act(tid, env), k) then s.mem.now + 1 else DoneAt(s.mem, k)
  {
    OpAt(s, tid);
    ActHistory(s.mem, s.ops[tid], env, k);
    QuietHistory(NextMem(s.mem, s.ops[tid], env), env.time, k);
  }

  lemma StepDiscoveries(cfg: Config, s: State, l: Label, s': State)
    requires Step(cfg, s, l, s')
    ensures s'.mem.discoveries ==
            if ActsAt(s, l, DiscoverStart)
            then s.mem.discoveries[s.mem.now + 1 := KeyOf(s.ops[l.tid].task)] else s.mem.discoveries
  {
    if l.Act? { ActDiscoveries(s.mem, s.ops[l.tid], l.env); }
  }

  // ---------------------------------------------------------------- calls

  /** The same call, whose record of freshness is kept or renewed at this step. */
  ghost predicate SameCall(m: Memory, op: Op, op': Op) {
    && op'.task == op.task
    && op'.begunAt == op.begunAt
    && op'.startVersion == op.startVersion
    && ((op'.freshAt == op.freshAt && op'.doneSeen == op.doneSeen) ||
        (op'.freshAt == m.now + 1 && op'.doneSeen == DoneAt(m, KeyOf(op.task))))
  }

  lemma NextIsSameCall(cfg: Config, m: Memory, op: Op, env: Env)
    ensures SameCall(m, op, NextOp(cfg, m, op, env))
  {
  }

  lemma StepCalls(cfg: Config, s: State, l: Label, s': State, t: Tid)
    requires Step(cfg, s, l, s') && t in s.ops
    ensures t in s'.ops && SameCall(s.mem, s.ops[t], s'.ops[t])
  {
    if l.Act? && t == l.tid { NextIsSameCall(cfg, s.mem, s.ops[t], l.env); }
  }

  lemma StepNewOps(cfg: Config, s: State, l: Label, s': State, t: Tid)
    requires Step(cfg, s, l, s') && t in s'.ops && t !in s.ops
    ensures s'.ops[t].freshAt == 0
  {
  }

  /** What a call remembers of its beginning. */
  lemma {:induction false} CallRecord(cfg: Config, ss: seq<State>, ls: seq<Label>, b: nat, n: nat)
    requires Run(cfg, ss, ls) && b < n <= |ls| && ls[b].Spawn?
    ensures ls[b].tid in ss[n].ops
    ensures var op := ss[n].ops[ls[b].tid];
            && op.task == ls[b].task && op.begunAt == b + 1
            && op.startVersion == Version(ss[b].mem, KeyOf(ls[b].task))
    decreases n
  {
    var i := n - 1;
    assert StepAt(cfg, ss, ls, i);
    RunKeeps(cfg, ss, ls, i);
    if i > b {
      CallRecord(cfg, ss, ls, b, i);
      StepCalls(cfg, ss[i], ls[i], ss[i + 1], ls[b].tid);
    }
  }

  // ---------------------------------------------------------------- freshness

  /** Whoever established freshness after time `c` has seen the completion at time `c`. */
  ghost predicate Remembers(op: Op, k: Key, c: nat) {
    KeyOf(op.task) == k && op.freshAt > c ==> op.doneSeen >= c
  }

  lemma {:induction false} CompletionIsSeen(cfg: Config, ss: seq<State>, ls: seq<Label>, c: nat, k: Key, n: nat, t: Tid)
    requires Run(cfg, ss, ls) && c < n <= |ls| && Completes(ss[c], ls[c], k)
    ensures DoneAt(ss[n].mem, k) >= c + 1
    ensures t in ss[n].ops ==> Remembers(ss[n].ops[t], k, c + 1)
    decreases n
  {
    var i := n - 1;
    assert StepAt(cfg, ss, ls, i);
    RunKeeps(cfg, ss, ls, i);
    assert TimesOk(ss[i].mem, k);
    StepHistory(cfg, ss[i], ls[i], ss[i + 1], k);
    if i > c { CompletionIsSeen(cfg, ss, ls, c, k, i, t); }
    if t in ss[n].ops {
      if t in ss[i].ops {
        StepCalls(cfg, ss[i], ls[i], ss[i + 1], t);
        if i == c { OpAt(ss[i], t); }
      } else {
        StepNewOps(cfg, ss[i], ls[i], ss[i + 1], t);
      }
    }
  }

  lemma {:induction false} DiscoveryHappened(cfg: Config, ss: seq<State>, ls: seq<Label>, n: nat, t: nat)
    requires Run(cfg, ss, ls) && n <= |ls| && t in ss[n].mem.discoveries
    ensures 0 < t <= n && StartsDiscovery(ss[t - 1], ls[t - 1], ss[n].mem.discoveries[t])
  {
    if n > 0 {
      var i := n - 1;
      assert StepAt(cfg, ss, ls, i);
      RunKeeps(cfg, ss, ls, i);
      StepDiscoveries(cfg, ss[i], ls[i], ss[i + 1]);
      if t != n { DiscoveryHappened(cfg, ss, ls, i, t); }
    }
  }

  /**
   Freshness.  When `cached_worktrees` for `k` answers, there is an instant inside the call such
   that the discovery it answers from began after every invalidation of `k`, or of everything,
   that had completed by then; in particular after every one that had completed when the call began.
   */
  lemma CachedWorktreesIsFresh(cfg: Config, ss: seq<State>, ls: seq<Label>, b: nat, n: nat, k: Key, listing: Listing)
    returns (instant: nat)
    requires Run(cfg, ss, ls) && b < n <= |ls| && ls[b].Spawn? && ls[b].task == CachedWorktrees(k)
    requires ls[b].tid in ss[n].ops && ss[n].ops[ls[b].tid].pc == Done(Listed(listing))
    ensures b < instant < n
    ensures 0 < listing.startedAt <= n
    ensures StartsDiscovery(ss[listing.startedAt - 1], ls[listing.startedAt - 1], k)
    ensures forall c :: 0 <= c < instant && Completes(ss[c], ls[c], k) ==> c < listing.startedAt - 1
  {
    var tid := ls[b].tid;
    var op := ss[n].ops[tid];
    RunKeeps(cfg, ss, ls, n);
    OpAt(ss[n], tid);
    CallRecord(cfg, ss, ls, b, n);
    DiscoveryHappened(cfg, ss, ls, n, listing.startedAt);
    instant := op.freshAt - 1;
    forall c | 0 <= c < instant && Completes(ss[c], ls[c], k) ensures c < listing.startedAt - 1 {
      CompletionIsSeen(cfg, ss, ls, c, k, n, tid);
    }
  }

  // ---------------------------------------------------------------- bounded retry

  lemma VersionAt(cfg: Config, ss: seq<State>, ls: seq<Label>, i: nat, k: Key)
    requires Run(cfg, ss, ls) && i < |ls|
    ensures Version(ss[i + 1].mem, k) == Version(ss[i].mem, k) + (if TakesEffect(ss[i], ls[i], k) then 1 else 0)
  {
    assert StepAt(cfg, ss, ls, i);
    RunKeeps(cfg, ss, ls, i);
    assert TimesOk(ss[i].mem, k);
    StepHistory(cfg, ss[i], ls[i], ss[i + 1], k);
  }

  /** The last step before `n` at which an invalidation of `k` took effect. */
  lemma {:induction false} LastEffect(cfg: Config, ss: seq<State>, ls: seq<Label>, b: nat, n: nat, k: Key)
    returns (i: nat)
    requires Run(cfg, ss, ls) && b <= n <= |ls| && Version(ss[b].mem, k) < Version(ss[n].mem, k)
    ensures b <= i < n && TakesEffect(ss[i], ls[i], k)
    ensures Version(ss[i].mem, k) == Version(ss[n].mem, k) - 1
    decreases n
  {
    i := n - 1;
    VersionAt(cfg, ss, ls, i, k);
    if !TakesEffect(ss[i], ls[i], k) { i := LastEffect(cfg, ss, ls, b, n - 1, k); }
  }

  predicate Bumped(op: Op) {
    PostBump(op.pc) || op.pc.Done?
  }

  lemma StepStaysBumped(cfg: Config, s: State, l: Label, s': State, t: Tid)
    requires Step(cfg, s, l, s') && t in s.ops && (Bumped(s.ops[t]) || (ActsAt(s, l, At(InvGens, Held)) && l.tid == t))
    ensures t in s'.ops && Bumped(s'.ops[t])
  {
    if l.Act? && t == l.tid { assert Bumped(NextOp(cfg, s.mem, s.ops[t], l.env)); }
  }

  /** One operation invalidates once. */
  lemma {:induction false} StaysBumped(cfg: Config, ss: seq<State>, ls: seq<Label>, i: nat, n: nat)
    requires Run(cfg, ss, ls) && i < n <= |ls| && ActsAt(ss[i], ls[i], At(InvGens, Held))
    ensures ls[i].tid in ss[n].ops && Bumped(ss[n].ops[ls[i].tid])
    decreases n
  {
    var j := n - 1;
    assert StepAt(cfg, ss, ls, j);
    if j > i { StaysBumped(cfg, ss, ls, i, j); }
    StepStaysBumped(cfg, ss[j], ls[j], ss[j + 1], ls[i].tid);
  }

  /**
   Bounded retry.  `cached_worktrees` gives up only if, during the call, three different
   invalidations of its key or of everything took effect.
   */
  lemma UnavailableNeedsThreeInvalidations(cfg: Config, ss: seq<State>, ls: seq<Label>, b: nat, n: nat, k: Key)
    returns (i1: nat, i2: nat, i3: nat)
    requires Run(cfg, ss, ls) && b < n <= |ls| && ls[b].Spawn? && ls[b].task == CachedWorktrees(k)
    requires ls[b].tid in ss[n].ops && ss[n].ops[ls[b].tid].pc == Done(Unavailable)
    ensures b <= i1 < i2 < i3 < n
    ensures TakesEffect(ss[i1], ls[i1], k) && TakesEffect(ss[i2], ls[i2], k) && TakesEffect(ss[i3], ls[i3], k)
    ensures ls[i1].tid != ls[i2].tid && ls[i2].tid != ls[i3].tid && ls[i1].tid != ls[i3].tid
  {
    RunKeeps(cfg, ss, ls, n);
    OpAt(ss[n], ls[b].tid);
    CallRecord(cfg, ss, ls, b, n);
    i3 := LastEffect(cfg, ss, ls, b, n, k);
    i2 := LastEffect(cfg, ss, ls, b, i3, k);
    i1 := LastEffect(cfg, ss, ls, b, i2, k);
    StaysBumped(cfg, ss, ls, i1, i2);
    StaysBumped(cfg, ss, ls, i1, i3);
    StaysBumped(cfg, ss, ls, i2, i3);
  }

  // ---------------------------------------------------------------- the cache

  /** A listing of `k` is stored. */
  ghost predicate StoresKey(s: State, l: Label, k: Key) {
    ActsAt(s, l, At(StoreCache, Held)) && KeyOf(s.ops[l.tid].task) == k
  }

  /** An invalidation of a cached key was dropped at step i, and until n nothing stored or invalidated the key. */
  ghost predicate DroppedSince(ss: seq<State>, ls: seq<Label>, i: nat, n: nat, k: Key)
    requires |ss| == |ls| + 1 && n <= |ls|
  {
    && i < n && DropsInvalidation(ss[i], ls[i], k) && k in ss[i].mem.cache
    && forall j :: i < j < n ==> !StoresKey(ss[j], ls[j], k) && !Completes(ss[j], ls[j], k)
  }

  /** An invalidation that was about to evict `k` was dropped, and the key has been left as it was since. */
  ghost predicate LeftBehind(ss: seq<State>, ls: seq<Label>, n: nat, k: Key)
    requires |ss| == |ls| + 1 && n <= |ls|
  {
    exists i :: 0 <= i < n && DroppedSince(ss, ls, i, n, k)
  }

  lemma StepAbandons(cfg: Config, s: State, l: Label, s': State, k: Key)
    requires Inv(cfg, s) && Step(cfg, s, l, s')
    ensures k in s'.mem.abandoned <==>
            || (DropsInvalidation(s, l, k) && k in s.mem.cache)
            || (k in s.mem.abandoned && !StoresKey(s, l, k) && !Completes(s, l, k))
  {
    match l
    case Spawn(_, _) =>
    case Act(tid, env) =>
      OpAt(s, tid);
      ActAbandons(s.mem, s.ops[tid], env, k);
    case Drop(tid) => DropAbandons(s, tid, k);
  }

  lemma DropAbandons(s: State, tid: Tid, k: Key)
    requires PendingOk(s) && CanDrop(s, tid)
    ensures k in DoDrop(s, tid).mem.abandoned <==>
            || (s.ops[tid].pc == At(InvCache, Queued) && Covers(ScopeOf(s.ops[tid].task), k) && k in s.mem.cache)
            || k in s.mem.abandoned
  {
    assert PendingFor(s.mem, s.ops, tid);
  }

  /** A key is abandoned exactly if an invalidation of it was dropped and nothing stored or invalidated it since. */
  lemma {:induction false} AbandonedMeansDropped(cfg: Config, ss: seq<State>, ls: seq<Label>, n: nat, k: Key)
    requires Run(cfg, ss, ls) && n <= |ls|
    ensures k in ss[n].mem.abandoned <==> LeftBehind(ss, ls, n, k)
  {
    if n > 0 {
      var i := n - 1;
      assert StepAt(cfg, ss, ls, i);
      RunKeeps(cfg, ss, ls, i);
      AbandonedMeansDropped(cfg, ss, ls, i, k);
      StepAbandons(cfg, ss[i], ls[i], ss[i + 1], k);
      DroppedOneMore(ss, ls, i, k);
    }
  }

  lemma DroppedOneMore(ss: seq<State>, ls: seq<Label>, n: nat, k: Key)
    requires |ss| == |ls| + 1 && n < |ls|
    ensures LeftBehind(ss, ls, n + 1, k) <==>
            || (DropsInvalidation(ss[n], ls[n], k) && k in ss[n].mem.cache)
            || (LeftBehind(ss, ls, n, k) && !StoresKey(ss[n], ls[n], k) && !Completes(ss[n], ls[n], k))
  {
    var next := n + 1;
    if LeftBehind(ss, ls, next, k) {
      var i :| 0 <= i < next && DroppedSince(ss, ls, i, next, k);
      assert i < n ==> DroppedSince(ss, ls, i, n, k);
    }
    if DropsInvalidation(ss[n], ls[n], k) && k in ss[n].mem.cache {
      assert DroppedSince(ss, ls, n, next, k);
    }
    if LeftBehind(ss, ls, n, k) && !StoresKey(ss[n], ls[n], k) && !Completes(ss[n], ls[n], k) {
      var i :| 0 <= i < n && DroppedSince(ss, ls, i, n, k);
      assert DroppedSince(ss, ls, i, next, k);
    }
  }

  /**
   Whenever no invalidator holds the write lock, a cached entry carries the current generation of
   its key, and no invalidation of the key took effect since that generation was read, if and only
   if no invalidation of the key was dropped before it could evict the entry.  Every entry, current
   or not, postdates every completed invalidation of its key.
   */
  lemma EntryIsCurrentUnlessAbandoned(cfg: Config, ss: seq<State>, ls: seq<Label>, n: nat, k: Key)
    requires Run(cfg, ss, ls) && n <= |ls| && k in ss[n].mem.cache && ss[n].gensLock.writer == None
    ensures var (m, listing) := (ss[n].mem, ss[n].mem.cache[k].listing);
            && (listing.seen.gen == Current(m, k) <==> !LeftBehind(ss, ls, n, k))
            && (BumpedAt(m, k) <= listing.seen.readAt <==> !LeftBehind(ss, ls, n, k))
            && DoneAt(m, k) < listing.startedAt
  {
    RunKeeps(cfg, ss, ls, n);
    assert EntryOk(ss[n].mem, k, ss[n].mem.cache[k]);
    AbandonedMeansDropped(cfg, ss, ls, n, k);
  }

  /** When a listing is stored, no invalidation of its key took effect since the generation it depends on was read. */
  lemma StoreIsUndisturbed(cfg: Config, ss: seq<State>, ls: seq<Label>, n: nat, k: Key)
    requires Run(cfg, ss, ls) && n < |ls| && StoresKey(ss[n], ls[n], k)
    ensures var (m, op) := (ss[n].mem, ss[n].ops[ls[n].tid]);
            && op.listing.seen.gen == Current(m, k)
            && BumpedAt(m, k) <= op.listing.seen.readAt < op.listing.startedAt
  {
    RunKeeps(cfg, ss, ls, n);
    OpAt(ss[n], ls[n].tid);
  }

  /** The cache never holds more than `maxEntries` entries. */
  lemma CacheIsBounded(cfg: Config, ss: seq<State>, ls: seq<Label>, n: nat)
    requires Run(cfg, ss, ls) && n <= |ls|
    ensures |ss[n].mem.cache| <= cfg.maxEntries
  {
    RunKeeps(cfg, ss, ls, n);
    assert |ss[n].mem.cache| == |ss[n].mem.cache.Keys|;
  }

  /** A strictly newer entry survives the eviction that follows its own store. */
  lemma NewestSurvives(cache: map<Key, Entry>, k: Key, maxEntries: nat, keep: set<Key>)
    requires k in cache && maxEntries >= 1 && Survivors(cache, maxEntries, keep)
    requires forall j :: j in cache && j != k ==> cache[j].loadedAt < cache[k].loadedAt
    ensures k in keep
  {
    assert k in cache.Keys;
    var a :| a in keep;
    forall b | b in cache.Keys - keep ensures b != k {
      assert cache[b].loadedAt <= cache[a].loadedAt;
    }
  }

  lemma EvictedAreOlder(cache: map<Key, Entry>, k: Key, e: Entry, maxEntries: nat, keep: set<Key>)
    requires Survivors(cache[k := e], maxEntries, keep) && k in keep
    ensures var kept := Keep(cache[k := e], keep);
            forall a, b :: a in kept && b in cache && b !in kept ==> cache[b].loadedAt <= kept[a].loadedAt
  {
    var stored := cache[k := e];
    forall a, b | a in Keep(stored, keep) && b in cache && b !in Keep(stored, keep)
      ensures cache[b].loadedAt <= Keep(stored, keep)[a].loadedAt
    {
      assert a in keep && b in stored.Keys - keep && stored[b] == cache[b];
    }
  }

  /**
   With room for one entry and a clock that advanced since the last step, the listing just
   stored is in the cache afterwards; whatever was evicted for it is no newer than what stayed.
   */
  lemma StoredEntrySurvives(cfg: Config, ss: seq<State>, ls: seq<Label>, n: nat)
    requires Run(cfg, ss, ls) && n < |ls| && cfg.maxEntries >= 1
    requires ActsAt(ss[n], ls[n], At(StoreCache, Held)) && ls[n].env.time > ss[n].mem.clock
    ensures var (m, m', op) := (ss[n].mem, ss[n + 1].mem, ss[n].ops[ls[n].tid]);
            && KeyOf(op.task) in m'.cache
            && m'.cache[KeyOf(op.task)] == Entry(ls[n].env.time, op.listing)
            && forall a, b :: a in m'.cache && b in m.cache && b !in m'.cache ==>
                 m.cache[b].loadedAt <= m'.cache[a].loadedAt
  {
    var (m, op, env) := (ss[n].mem, ss[n].ops[ls[n].tid], ls[n].env);
    var k := KeyOf(op.task);
    assert StepAt(cfg, ss, ls, n);
    RunKeeps(cfg, ss, ls, n);
    SecondCheckAgrees(cfg, ss, ls, n, ls[n].tid);
    forall j | j in m.cache ensures m.cache[j].loadedAt <= m.clock { assert EntryOk(m, j, m.cache[j]); }
    var cache := m.cache[k := Entry(env.time, op.listing)];
    NewestSurvives(cache, k, cfg.maxEntries, env.keep);
    EvictedAreOlder(m.cache, k, Entry(env.time, op.listing), cfg.maxEntries, env.keep);
    assert ss[n + 1].mem.cache == Keep(cache, env.keep);
  }

  /** A global counter that moved since a recheck loaded it moved after the round's first read. */
  ghost predicate RecheckOk(m: Memory, op: Op) {
    AtGenRead(op.pc, Recheck) && op.loaded < m.global ==> op.outer.readAt < m.bumpedAll
  }

  predicate BumpsGlobal(op: Op) {
    op.pc == At(InvGens, Held) && op.task.InvalidateAll?
  }

  lemma ActGlobal(m: Memory, op: Op, env: Env)
    ensures var m' := NextMem(m, op, env);
            && m'.global == m.global + (if BumpsGlobal(op) then 1 else 0)
            && m'.bumpedAll == if BumpsGlobal(op) then m.now + 1 else m.bumpedAll
  {
    if ChangeOf(op) == None { OthersChangeLittle(m, op, env); } else { ChangesOfGlobal(m, KeyOf(op.task)); }
  }

  lemma ChangesOfGlobal(m: Memory, k: Key)
    ensures BumpGlobal(m).global == m.global + 1 && BumpGlobal(m).bumpedAll == m.now + 1
    ensures BumpKey(m, k).global == ClearGens(m).global == EvictKey(m, k).global == EvictAll(m).global == m.global
    ensures BumpKey(m, k).bumpedAll == ClearGens(m).bumpedAll == m.bumpedAll
    ensures EvictKey(m, k).bumpedAll == EvictAll(m).bumpedAll == m.bumpedAll
  {
  }

  lemma RecheckStays(cfg: Config, m: Memory, op: Op, env: Env, m': Memory)
    requires RecheckOk(m, op) && op.loaded <= m.global && m'.global == m.global && m'.bumpedAll == m.bumpedAll
    ensures RecheckOk(m', op) && RecheckOk(m', NextOp(cfg, m, op, env))
  {
  }

  lemma StepRecheck(cfg: Config, s: State, l: Label, s': State, t: Tid)
    requires Inv(cfg, s) && Step(cfg, s, l, s') && t in s.ops && RecheckOk(s.mem, s.ops[t])
    ensures t in s'.ops && RecheckOk(s'.mem, s'.ops[t])
  {
    OpAt(s, t);
    match l
    case Spawn(_, _) =>
    case Drop(_) =>
    case Act(tid, env) =>
      ActGlobal(s.mem, s.ops[tid], env);
      if !BumpsGlobal(s.ops[tid]) { RecheckStays(cfg, s.mem, s.ops[t], env, s'.mem); }
  }

  lemma {:induction false} RechecksAreOk(cfg: Config, ss: seq<State>, ls: seq<Label>, n: nat, t: Tid)
    requires Run(cfg, ss, ls) && n <= |ls| && t in ss[n].ops
    ensures RecheckOk(ss[n].mem, ss[n].ops[t])
  {
    if n > 0 {
      var i := n - 1;
      assert StepAt(cfg, ss, ls, i);
      RunKeeps(cfg, ss, ls, i);
      if t in ss[i].ops {
        RechecksAreOk(cfg, ss, ls, i, t);
        StepRecheck(cfg, ss[i], ls[i], ss[i + 1], t);
      }
    }
  }

  /**
   What the generation check after a hit proves.  Equal generations mean that no invalidation of
   the key took effect since the round's first read if and only if the global counter did not move
   between the two parts of the second read.
   */
  lemma RecheckIsSound(cfg: Config, ss: seq<State>, ls: seq<Label>, n: nat, t: Tid)
    requires Run(cfg, ss, ls) && n <= |ls| && t in ss[n].ops && ss[n].ops[t].pc == At(GenRead(Recheck), Held)
    requires AfterGenRead(ss[n].mem, ss[n].ops[t], Recheck).pc.Done?
    ensures BumpedAt(ss[n].mem, KeyOf(ss[n].ops[t].task)) <= ss[n].ops[t].outer.readAt <==>
            ss[n].ops[t].loaded == ss[n].mem.global
  {
    RunKeeps(cfg, ss, ls, n);
    OpAt(ss[n], t);
    RechecksAreOk(cfg, ss, ls, n, t);
  }

  /** The second generation check of `store_if_current` never disagrees with the first. */
  lemma SecondCheckAgrees(cfg: Config, ss: seq<State>, ls: seq<Label>, n: nat, t: Tid)
    requires Run(cfg, ss, ls) && n <= |ls| && t in ss[n].ops && ss[n].ops[t].pc == At(StoreCache, Held)
    ensures StillCurrent(ss[n].mem, ss[n].ops[t])
  {
    RunKeeps(cfg, ss, ls, n);
    OpAt(ss[n], t);
  }

  // ---------------------------------------------------------------- progress

  lemma {:induction false} SurvivorsExist(cache: map<Key, Entry>, keys: set<Key>, maxEntries: nat)
    returns (keep: set<Key>)
    requires keys <= cache.Keys
    requires forall a, b :: a in keys && b in cache.Keys - keys ==> cache[b].loadedAt <= cache[a].loadedAt
    requires |keys| >= Min(|cache.Keys|, maxEntries)
    ensures Survivors(cache, maxEntries, keep)
    decreases keys
  {
    if |keys| == Min(|cache.Keys|, maxEntries) {
      keep := keys;
    } else {
      var oldest := Oldest(cache, keys);
      keep := SurvivorsExist(cache, keys - {oldest}, maxEntries);
    }
  }

  lemma {:induction false} Oldest(cache: map<Key, Entry>, keys: set<Key>) returns (oldest: Key)
    requires keys <= cache.Keys && keys != {}
    ensures oldest in keys && forall k :: k in keys ==> cache[oldest].loadedAt <= cache[k].loadedAt
    decreases keys
  {
    oldest :| oldest in keys;
    if keys != {oldest} {
      var other := Oldest(cache, keys - {oldest});
      if cache[other].loadedAt < cache[oldest].loadedAt { oldest := other; }
    }
  }

  predicate IsQueued(pc: Pc) {
    pc.At? && pc.stage == Queued
  }

  /** An operation that is not queued can always take its next step. */
  lemma UnqueuedCanAct(cfg: Config, s: State, t: Tid) returns (env: Env)
    requires t in s.ops && !s.ops[t].pc.Done? && !IsQueued(s.ops[t].pc)
    ensures CanAct(cfg, s, t, env)
  {
    env := Env(s.mem.clock, None, {});
    if s.ops[t].pc == At(StoreCache, Held) {
      var cache := s.mem.cache[KeyOf(s.ops[t].task) := Entry(s.mem.clock, s.ops[t].listing)];
      var keep := SurvivorsExist(cache, cache.Keys, cfg.maxEntries);
      env := env.(keep := keep);
    }
  }

  /** If nobody holds the lock that `t` waits for, the head of its queue can take it. */
  lemma QueueHeadCanAct(cfg: Config, s: State, id: LockId, t: Tid) returns (head: Tid, env: Env)
    requires LocksOk(s) && t in s.ops && Waits(id, s.ops[t].pc).Some?
    requires forall u :: u in s.ops ==> Holds(id, s.ops[u].pc) == None
    ensures CanAct(cfg, s, head, env) && !s.ops[head].pc.Done?
  {
    var lock := Lock(s, id);
    assert Waiting(lock, id, s.ops, Waiter(t, Waits(id, s.ops[t].pc).value));
    var w := lock.queue[0];
    assert Waiting(lock, id, s.ops, w);
    assert lock.writer.Some? ==> Owned(lock, id, s.ops, lock.writer.value);
    forall r ensures r !in lock.readers { assert Owned(lock, id, s.ops, r); }
    head, env := w.tid, Env(s.mem.clock, None, {});
  }

  /** Deadlock freedom: while an operation is unfinished, some operation can take its next step. */
  lemma SomeoneCanAct(cfg: Config, ss: seq<State>, ls: seq<Label>, n: nat, t: Tid) returns (tid: Tid, env: Env)
    requires Run(cfg, ss, ls) && n <= |ls| && t in ss[n].ops && !ss[n].ops[t].pc.Done?
    ensures CanAct(cfg, ss[n], tid, env)
  {
    var s := ss[n];
    RunKeeps(cfg, ss, ls, n);
    if u :| u in s.ops && !s.ops[u].pc.Done? && !IsQueued(s.ops[u].pc) {
      env := UnqueuedCanAct(cfg, s, u);
      tid := u;
    } else if u :| u in s.ops && Waits(Cache, s.ops[u].pc).Some? {
      tid, env := QueueHeadCanAct(cfg, s, Cache, u);
    } else {
      assert IsQueued(s.ops[t].pc);
      tid, env := QueueHeadCanAct(cfg, s, Gens, t);
    }
  }

  // ---------------------------------------------------------------- bounded work

  const STEPS_PER_ROUND := 28
  const MAX_STEPS := 84

  function StageRank(stage: Stage): nat {
    match stage case Held => 0 case Queued => 1 case Requesting => 2
  }

  function SiteRank(site: Site): nat {
    match site case Final => 1 case Inner => 13 case Recheck => 17 case Outer => 25
  }

  /** How many steps of the current round are left at most. */
  function PcRank(pc: Pc): nat {
    match pc
    case Done(_) => 0
    case GenLoad(site) => SiteRank(site) + 3
    case TtlCheck => 21
    case DiscoverStart => 12
    case Discovering => 11
    case Clearing => 4
    case At(place, stage) =>
      StageRank(stage) +
      (match place
       case GenRead(site) => SiteRank(site)
       case CacheRead => 22
       case StoreGens => 8
       case StoreCache => 5
       case InvGens => 5
       case InvCache => 1)
  }

  function Rank(op: Op): nat {
    PcRank(op.pc) + STEPS_PER_ROUND * Max(0, MAX_ROUNDS - 1 - op.round)
  }

  /** A move within a round. */
  lemma RankFallsIn(op: Op, op': Op)
    requires op'.round == op.round && PcRank(op'.pc) < PcRank(op.pc)
    ensures Rank(op') < Rank(op)
  {
  }

  lemma FinalRankFalls(m: Memory, op: Op)
    requires op.round < MAX_ROUNDS && op.pc == At(GenRead(Final), Held)
    ensures Rank(AfterGenRead(m, op, Final)) < Rank(op)
  {
  }

  lemma HeldRankFalls(m: Memory, op: Op, place: Place)
    requires op.pc == At(place, Held) && place != GenRead(Final) && PcFits(op.task, op.pc)
    ensures var op' := AfterHeld(m, op, place); op'.round == op.round && PcRank(op'.pc) < PcRank(op.pc)
  {
    match place
    case GenRead(_) =>
    case CacheRead =>
    case StoreGens =>
    case StoreCache =>
    case InvGens =>
    case InvCache =>
  }

  lemma RankFalls(cfg: Config, m: Memory, op: Op, env: Env)
    requires OpOk(m, op) && !op.pc.Done?
    ensures Rank(NextOp(cfg, m, op, env)) < Rank(op)
  {
    var op' := NextOp(cfg, m, op, env);
    if op.pc == At(GenRead(Final), Held) {
      FinalRankFalls(m, op);
    } else {
      if op.pc.At? && op.pc.stage == Held { HeldRankFalls(m, op, op.pc.place); }
      RankFallsIn(op, op');
    }
  }

  /** How many of the labels are steps of `tid`. */
  function StepsOf(ls: seq<Label>, tid: Tid): nat {
    if ls == [] then 0
    else StepsOf(ls[..|ls| - 1], tid) + (if IsStepOf(ls[|ls| - 1], tid) then 1 else 0)
  }

  predicate IsStepOf(l: Label, tid: Tid) {
    l.Act? && l.tid == tid
  }

  lemma StepRank(cfg: Config, s: State, l: Label, s': State, tid: Tid)
    requires Inv(cfg, s) && Step(cfg, s, l, s')
    ensures if tid in s.ops
            then tid in s'.ops && Rank(s'.ops[tid]) + (if IsStepOf(l, tid) then 1 else 0) <= Rank(s.ops[tid])
            else !IsStepOf(l, tid) && (tid in s'.ops ==> Rank(s'.ops[tid]) <= MAX_STEPS)
  {
    if tid in s.ops {
      OpAt(s, tid);
      if IsStepOf(l, tid) { RankFalls(cfg, s.mem, s.ops[tid], l.env); }
    }
  }

  lemma RunPrefix(cfg: Config, ss: seq<State>, ls: seq<Label>, n: nat)
    requires Run(cfg, ss, ls) && n <= |ls|
    ensures Run(cfg, ss[..n + 1], ls[..n])
  {
    var ss', ls' := ss[..n + 1], ls[..n];
    forall i | 0 <= i < n ensures StepAt(cfg, ss', ls', i) { assert StepAt(cfg, ss, ls, i); }
  }

  /**
   Bounded work: in every run each operation takes at most 84 steps, however many others interfere.
   */
  lemma {:induction false} WorkIsBounded(cfg: Config, ss: seq<State>, ls: seq<Label>, tid: Tid)
    requires Run(cfg, ss, ls)
    ensures StepsOf(ls, tid) + (if tid in ss[|ls|].ops then Rank(ss[|ls|].ops[tid]) else 0) <= MAX_STEPS
    ensures tid !in ss[|ls|].ops ==> StepsOf(ls, tid) == 0
    decreases |ls|
  {
    if ls != [] {
      var i := |ls| - 1;
      assert StepAt(cfg, ss, ls, i);
      RunPrefix(cfg, ss, ls, i);
      WorkIsBounded(cfg, ss[..i + 1], ls[..i], tid);
      RunKeeps(cfg, ss, ls, i);
      StepRank(cfg, ss[i], ls[i], ss[i + 1], tid);
    }
  }

  predicate IsActOf(l: Label, tids: set<Tid>) {
    l.Act? && l.tid in tids
  }

  /** How many of the labels are steps of one of `tids`. */
  function ActsOf(ls: seq<Label>, tids: set<Tid>): nat {
    if ls == [] then 0
    else ActsOf(ls[..|ls| - 1], tids) + (if IsActOf(ls[|ls| - 1], tids) then 1 else 0)
  }

  /** How many of the labels are steps. */
  function Acts(ls: seq<Label>): nat {
    if ls == [] then 0 else Acts(ls[..|ls| - 1]) + (if ls[|ls| - 1].Act? then 1 else 0)
  }

  lemma {:induction false} ActsOfOneMore(ls: seq<Label>, tids: set<Tid>, tid: Tid)
    requires tid in tids
    ensures ActsOf(ls, tids) == ActsOf(ls, tids - {tid}) + StepsOf(ls, tid)
  {
    if ls != [] { ActsOfOneMore(ls[..|ls| - 1], tids, tid); }
  }

  lemma {:induction false} ActsOfNobody(ls: seq<Label>)
    ensures ActsOf(ls, {}) == 0
  {
    if ls != [] { ActsOfNobody(ls[..|ls| - 1]); }
  }

  lemma {:induction false} ActsOfAreBounded(cfg: Config, ss: seq<State>, ls: seq<Label>, tids: set<Tid>)
    requires Run(cfg, ss, ls)
    ensures ActsOf(ls, tids) <= MAX_STEPS * |tids|
    decreases tids
  {
    if tids == {} {
      ActsOfNobody(ls);
    } else {
      var tid :| tid in tids;
      ActsOfOneMore(ls, tids, tid);
      WorkIsBounded(cfg, ss, ls, tid);
      ActsOfAreBounded(cfg, ss, ls, tids - {tid});
      assert |tids| == |tids - {tid}| + 1;
    }
  }

  lemma StepKeepsOps(cfg: Config, s: State, l: Label, s': State)
    requires Step(cfg, s, l, s')
    ensures s.ops.Keys <= s'.ops.Keys && (l.Act? ==> l.tid in s'.ops)
  {
  }

  lemma {:induction false} ActsAreOfOps(cfg: Config, ss: seq<State>, ls: seq<Label>, tids: set<Tid>)
    requires Run(cfg, ss, ls) && ss[|ls|].ops.Keys <= tids
    ensures Acts(ls) == ActsOf(ls, tids)
    decreases |ls|
  {
    if ls != [] {
      var i := |ls| - 1;
      assert StepAt(cfg, ss, ls, i);
      StepKeepsOps(cfg, ss[i], ls[i], ss[i + 1]);
      RunPrefix(cfg, ss, ls, i);
      ActsAreOfOps(cfg, ss[..i + 1], ls[..i], tids);
    }
  }

  /** A run takes at most 84 steps for each operation that it starts. */
  lemma RunsAreBounded(cfg: Config, ss: seq<State>, ls: seq<Label>)
    requires Run(cfg, ss, ls)
    ensures Acts(ls) <= MAX_STEPS * |ss[|ls|].ops|
  {
    var tids := ss[|ls|].ops.Keys;
    ActsAreOfOps(cfg, ss, ls, tids);
    ActsOfAreBounded(cfg, ss, ls, tids);
    assert |tids| == |ss[|ls|].ops|;
  }

  /** Where nobody can step any more, every operation has finished. */
  lemma StuckMeansDone(cfg: Config, ss: seq<State>, ls: seq<Label>, n: nat)
    requires Run(cfg, ss, ls) && n <= |ls| && forall tid, env :: !CanAct(cfg, ss[n], tid, env)
    ensures forall t :: t in ss[n].ops ==> ss[n].ops[t].pc.Done?
  {
    forall t | t in ss[n].ops ensures ss[n].ops[t].pc.Done? {
      if !ss[n].ops[t].pc.Done? {
        var tid, env := SomeoneCanAct(cfg, ss, ls, n, t);
      }
    }
  }
}
