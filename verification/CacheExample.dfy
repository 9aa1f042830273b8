/** Runs that show where the cache falls short of what one might expect of it. */
module CacheExample {
  import opened Prelude
  import opened CacheMachine
  import opened CacheTheorems

  const CONFIG := Config(1, 1)
  const ENV := Env(0, Some([]), {"p"})

  lemma Extend(ss: seq<State>, ls: seq<Label>, l: Label, s': State)
    requires Run(CONFIG, ss, ls) && Step(CONFIG, ss[|ls|], l, s')
    ensures Run(CONFIG, ss + [s'], ls + [l]) && (ss + [s'])[|ls + [l]|] == s'
  {
    var ss', ls' := ss + [s'], ls + [l];
    forall i | 0 <= i < |ls'| ensures StepAt(CONFIG, ss', ls', i) {
      if i < |ls| { assert StepAt(CONFIG, ss, ls, i); }
    }
  }

  /** A lock that at most the operation `tid` uses, as its program counter says. */
  function SoloLock(id: LockId, tid: Tid, pc: Pc): RwLock {
    match Holds(id, pc)
    case Some(mode) => if mode == Shared then RwLock({tid}, None, []) else RwLock({}, Some(tid), [])
    case None => if Waits(id, pc).Some? then RwLock({}, None, [Waiter(tid, Waits(id, pc).value)]) else FREE
  }

  /** The operation `tid` is at `pc`, and nobody else uses the lock of the generations. */
  predicate Using(s: State, tid: Tid, pc: Pc) {
    && tid in s.ops && s.ops[tid].pc == pc
    && s.gensLock == SoloLock(Gens, tid, pc)
    && s.mem.clock == 0
  }

  /** Nobody else uses the lock of the cache either. */
  predicate Solo(s: State, tid: Tid, pc: Pc) {
    Using(s, tid, pc) && s.cacheLock == SoloLock(Cache, tid, pc)
  }

  lemma SoloStays(m: Memory, op: Op, id: LockId, tid: Tid)
    requires !op.pc.Done?
    ensures var pc' := NextOp(CONFIG, m, op, ENV).pc;
            NextLock(SoloLock(id, tid, op.pc), id, tid, op.pc, pc') == SoloLock(id, tid, pc')
  {
  }

  /** One step of an operation. */
  lemma Move(ss: seq<State>, ls: seq<Label>, tid: Tid, pc: Pc) returns (ss': seq<State>, ls': seq<Label>)
    requires Run(CONFIG, ss, ls) && Using(ss[|ls|], tid, pc) && CanAct(CONFIG, ss[|ls|], tid, ENV)
    ensures Run(CONFIG, ss', ls')
    ensures var (s, s') := (ss[|ls|], ss'[|ls'|]);
            var op' := NextOp(CONFIG, s.mem, s.ops[tid], ENV);
            && Using(s', tid, op'.pc) && (Solo(s, tid, pc) ==> Solo(s', tid, op'.pc))
            && s'.cacheLock == NextLock(s.cacheLock, Cache, tid, pc, op'.pc)
            && s'.ops == s.ops[tid := op']
            && s'.mem == Tick(NextMem(s.mem, s.ops[tid], ENV), 0)
  {
    var s := ss[|ls|];
    var s' := DoAct(CONFIG, s, tid, ENV);
    SoloStays(s.mem, s.ops[tid], Gens, tid);
    SoloStays(s.mem, s.ops[tid], Cache, tid);
    Extend(ss, ls, Act(tid, ENV), s');
    ss', ls' := ss + [s'], ls + [Act(tid, ENV)];
  }

  /** From asking for a lock to holding it. */
  lemma Acquire(ss: seq<State>, ls: seq<Label>, tid: Tid, place: Place) returns (ss': seq<State>, ls': seq<Label>)
    requires Run(CONFIG, ss, ls) && Using(ss[|ls|], tid, At(place, Requesting))
    requires LockOf(place) == Cache ==> Solo(ss[|ls|], tid, At(place, Requesting))
    ensures Run(CONFIG, ss', ls')
    ensures var (s, s') := (ss[|ls|], ss'[|ls'|]);
            && Using(s', tid, At(place, Held))
            && (Solo(s, tid, At(place, Requesting)) ==> Solo(s', tid, At(place, Held)))
            && (LockOf(place) == Gens ==> s'.cacheLock == s.cacheLock)
            && s'.ops == s.ops[tid := s.ops[tid].(pc := At(place, Held))]
            && s'.mem == s.mem.(now := s.mem.now + 2)
  {
    ss', ls' := Move(ss, ls, tid, At(place, Requesting));
    ss', ls' := Move(ss', ls', tid, At(place, Queued));
  }

  const FIRST := Generation(0, 0)

  /** A refresh is under way, and nothing else has happened. */
  predicate Refreshing(s: State, pc: Pc) {
    && Solo(s, 0, pc) && s.ops.Keys == {0} && s.ops[0].task == Refresh("p")
    && s.mem.global == 0 && s.mem.gens == map[] && s.mem.cache == map[]
  }

  /** A refresh until it holds the lock for its generation read. */
  lemma BeginRefresh() returns (ss: seq<State>, ls: seq<Label>)
    ensures Run(CONFIG, ss, ls) && Refreshing(ss[|ls|], At(GenRead(Inner), Held)) && ss[|ls|].ops[0].loaded == 0
  {
    var s := DoSpawn(INIT, 0, Refresh("p"));
    Extend([INIT], [], Spawn(0, Refresh("p")), s);
    ss, ls := Move([INIT] + [s], [] + [Spawn(0, Refresh("p"))], 0, GenLoad(Inner));
    ss, ls := Acquire(ss, ls, 0, GenRead(Inner));
  }

  /** The same refresh until it has discovered something under the first generation. */
  lemma Discover() returns (ss: seq<State>, ls: seq<Label>)
    ensures Run(CONFIG, ss, ls) && Refreshing(ss[|ls|], At(StoreGens, Requesting))
    ensures ss[|ls|].ops[0].inner.gen == FIRST && ss[|ls|].ops[0].listing.seen.gen == FIRST
  {
    ss, ls := BeginRefresh();
    ss, ls := Move(ss, ls, 0, At(GenRead(Inner), Held));
    ss, ls := Move(ss, ls, 0, DiscoverStart);
    ss, ls := Move(ss, ls, 0, Discovering);
  }

  /** The same refresh until it holds both locks. */
  lemma ReachStore() returns (ss: seq<State>, ls: seq<Label>)
    ensures Run(CONFIG, ss, ls) && Refreshing(ss[|ls|], At(StoreCache, Held))
    ensures ss[|ls|].ops[0].inner.gen == FIRST && ss[|ls|].ops[0].listing.seen.gen == FIRST
  {
    ss, ls := Discover();
    ss, ls := Acquire(ss, ls, 0, StoreGens);
    ss, ls := Move(ss, ls, 0, At(StoreGens, Held));
    ss, ls := Acquire(ss, ls, 0, StoreCache);
  }

  /** What the cache holds once the first refresh has stored its listing. */
  predicate Stored(m: Memory) {
    "p" in m.cache && m.cache["p"].listing.seen.gen == FIRST && m.cache["p"].loadedAt == 0
  }

  /** The same refresh until it has stored its listing. */
  lemma Store() returns (ss: seq<State>, ls: seq<Label>)
    ensures Run(CONFIG, ss, ls) && ss[|ls|].gensLock == ss[|ls|].cacheLock == FREE
    ensures var m := ss[|ls|].mem;
            ss[|ls|].ops.Keys == {0} && m.clock == 0 && m.global == 0 && m.gens == map[] && Stored(m)
  {
    ss, ls := ReachStore();
    var entry := Entry(ENV.time, ss[|ls|].ops[0].listing);
    assert map["p" := entry].Keys == {"p"};
    ss, ls := Move(ss, ls, 0, At(StoreCache, Held));
  }

  /** A call of `cached_worktrees` that follows, until it holds the lock of the cache. */
  lemma Read() returns (ss: seq<State>, ls: seq<Label>)
    ensures Run(CONFIG, ss, ls) && Solo(ss[|ls|], 1, At(CacheRead, Held))
    ensures var (m, op) := (ss[|ls|].mem, ss[|ls|].ops[1]);
            && ss[|ls|].ops.Keys == {0, 1} && m.global == 0 && m.gens == map[] && Stored(m)
            && op.task == CachedWorktrees("p") && op.outer.gen == FIRST
  {
    ss, ls := Store();
    var s := DoSpawn(ss[|ls|], 1, CachedWorktrees("p"));
    Extend(ss, ls, Spawn(1, CachedWorktrees("p")), s);
    ss, ls := ss + [s], ls + [Spawn(1, CachedWorktrees("p"))];
    ss, ls := Move(ss, ls, 1, GenLoad(Outer));
    ss, ls := Acquire(ss, ls, 1, GenRead(Outer));
    ss, ls := Move(ss, ls, 1, At(GenRead(Outer), Held));
    ss, ls := Acquire(ss, ls, 1, CacheRead);
  }

  // ---------------------------------------------------------------- a dropped invalidation

  /** The call is reading the cache, which holds the listing. */
  predicate Reading(s: State) {
    && 1 in s.ops && s.ops[1].pc == At(CacheRead, Held) && s.ops[1].task == CachedWorktrees("p")
    && s.mem.global == 0 && Stored(s.mem)
  }

  /** An invalidation that starts while the call reads the cache. */
  lemma BeginBump() returns (ss: seq<State>, ls: seq<Label>)
    ensures Run(CONFIG, ss, ls) && Using(ss[|ls|], 2, At(InvGens, Held)) && Reading(ss[|ls|])
    ensures ss[|ls|].cacheLock == RwLock({1}, None, []) && ss[|ls|].mem.gens == map[]
    ensures ss[|ls|].ops[2].task == Invalidate("p")
  {
    ss, ls := Read();
    var s := DoSpawn(ss[|ls|], 2, Invalidate("p"));
    Extend(ss, ls, Spawn(2, Invalidate("p")), s);
    ss, ls := ss + [s], ls + [Spawn(2, Invalidate("p"))];
    ss, ls := Acquire(ss, ls, 2, InvGens);
  }

  /** The same invalidation, after its generation moved. */
  lemma Bump() returns (ss: seq<State>, ls: seq<Label>)
    ensures Run(CONFIG, ss, ls) && Using(ss[|ls|], 2, At(InvCache, Requesting)) && Reading(ss[|ls|])
    ensures ss[|ls|].cacheLock == RwLock({1}, None, []) && Get(ss[|ls|].mem.gens, "p") == 1
  {
    ss, ls := BeginBump();
    ss, ls := Move(ss, ls, 2, At(InvGens, Held));
  }

  /** The same invalidation, waiting for the cache. */
  lemma WaitForReader() returns (ss: seq<State>, ls: seq<Label>)
    ensures Run(CONFIG, ss, ls) && Using(ss[|ls|], 2, At(InvCache, Queued)) && Reading(ss[|ls|])
    ensures ss[|ls|].cacheLock == RwLock({1}, None, [Waiter(2, Exclusive)]) && Get(ss[|ls|].mem.gens, "p") == 1
  {
    ss, ls := Bump();
    ss, ls := Move(ss, ls, 2, At(InvCache, Requesting));
  }

  /**
   There is a run that ends with both locks free and a cached entry whose generation is not the
   current one: the invalidation was dropped while it waited for a reader of the cache.
   */
  lemma DroppedInvalidationLeavesEntry() returns (ss: seq<State>, ls: seq<Label>)
    ensures Run(CONFIG, ss, ls)
    ensures ss[|ls|].gensLock == ss[|ls|].cacheLock == FREE
    ensures "p" in ss[|ls|].mem.cache && ss[|ls|].mem.cache["p"].listing.seen.gen != Current(ss[|ls|].mem, "p")
  {
    ss, ls := WaitForReader();
    var s := DoDrop(ss[|ls|], 2);
    Extend(ss, ls, Drop(2), s);
    ss, ls := ss + [s], ls + [Drop(2)];
    assert s.cacheLock == SoloLock(Cache, 1, At(CacheRead, Held));
    ss, ls := Move(ss, ls, 1, At(CacheRead, Held));
  }

  // ---------------------------------------------------------------- a missed invalidation

  /** The same call, which finds the entry, until it has loaded the global part of its second read. */
  lemma ReachRecheck() returns (ss: seq<State>, ls: seq<Label>)
    ensures Run(CONFIG, ss, ls) && Solo(ss[|ls|], 1, At(GenRead(Recheck), Requesting))
    ensures var (m, op) := (ss[|ls|].mem, ss[|ls|].ops[1]);
            && ss[|ls|].ops.Keys == {0, 1} && m.global == 0 && op.loaded == 0
            && op.task == CachedWorktrees("p") && op.outer.gen == FIRST
  {
    ss, ls := Read();
    ss, ls := Move(ss, ls, 1, At(CacheRead, Held));
    ss, ls := Move(ss, ls, 1, TtlCheck);
    ss, ls := Move(ss, ls, 1, GenLoad(Recheck));
  }

  /** The call has loaded the first global counter and waits to ask for the lock. */
  predicate Loaded(s: State) {
    && 1 in s.ops && s.ops[1].pc == At(GenRead(Recheck), Requesting)
    && s.ops[1].loaded == 0 && s.ops[1].task == CachedWorktrees("p") && s.ops[1].outer.gen == FIRST
  }

  /** An invalidation of everything that starts before the call goes on. */
  lemma BumpEverything() returns (ss: seq<State>, ls: seq<Label>)
    ensures Run(CONFIG, ss, ls) && Solo(ss[|ls|], 2, Clearing) && Loaded(ss[|ls|])
    ensures ss[|ls|].mem.global == 1 && ss[|ls|].ops[2].task == InvalidateAll
  {
    ss, ls := ReachRecheck();
    var s := DoSpawn(ss[|ls|], 2, InvalidateAll);
    Extend(ss, ls, Spawn(2, InvalidateAll), s);
    ss, ls := ss + [s], ls + [Spawn(2, InvalidateAll)];
    ss, ls := Acquire(ss, ls, 2, InvGens);
    ss, ls := Move(ss, ls, 2, At(InvGens, Held));
  }

  /** The same invalidation, about to evict. */
  lemma ClearEverything() returns (ss: seq<State>, ls: seq<Label>)
    ensures Run(CONFIG, ss, ls) && Solo(ss[|ls|], 2, At(InvCache, Held)) && Loaded(ss[|ls|])
    ensures ss[|ls|].mem.global == 1 && ss[|ls|].mem.gens == map[] && ss[|ls|].ops[2].task == InvalidateAll
  {
    ss, ls := BumpEverything();
    ss, ls := Move(ss, ls, 2, Clearing);
    ss, ls := Acquire(ss, ls, 2, InvCache);
  }

  /** The same invalidation, completed. */
  lemma InvalidateEverything() returns (ss: seq<State>, ls: seq<Label>)
    ensures Run(CONFIG, ss, ls) && Loaded(ss[|ls|]) && Solo(ss[|ls|], 1, At(GenRead(Recheck), Requesting))
    ensures ss[|ls|].mem.global == 1 && ss[|ls|].mem.gens == map[]
    ensures 2 in ss[|ls|].ops && ss[|ls|].ops[2].pc == Done(Invalidated)
  {
    ss, ls := ClearEverything();
    ss, ls := Move(ss, ls, 2, At(InvCache, Held));
  }

  /**
   There is a run in which the generation check after a hit passes although an invalidation of
   everything took effect, and completed, since the round's first read.
   */
  lemma RecheckMissesInvalidation() returns (ss: seq<State>, ls: seq<Label>)
    ensures Run(CONFIG, ss, ls) && 1 in ss[|ls|].ops && 2 in ss[|ls|].ops
    ensures var (m, op) := (ss[|ls|].mem, ss[|ls|].ops[1]);
            && op.pc == At(GenRead(Recheck), Held)
            && AfterGenRead(m, op, Recheck).pc == Done(Listed(op.hit.listing))
            && op.loaded != m.global && op.outer.readAt < BumpedAt(m, "p")
            && ss[|ls|].ops[2].pc == Done(Invalidated)
  {
    ss, ls := InvalidateEverything();
    ss, ls := Acquire(ss, ls, 1, GenRead(Recheck));
    RecheckIsSound(CONFIG, ss, ls, |ls|, 1);
  }

  // ---------------------------------------------------------------- three invalidations

  /** Nobody uses a lock. */
  predicate Quiet(s: State) {
    s.gensLock == FREE && s.cacheLock == FREE && s.mem.clock == 0
  }

  predicate HasInvalidated(s: State, tid: Tid) {
    tid in s.ops && s.ops[tid].task == Invalidate("p") && s.ops[tid].pc == Done(Invalidated)
  }

  /** What a whole invalidation of `p` changes, apart from the history. */
  predicate WasInvalidated(m: Memory, m': Memory) {
    && m'.global == m.global && m'.cache == m.cache - {"p"} && m'.clock == m.clock
    && Get(m'.gens, "p") == Get(m.gens, "p") + 1
  }

  /** An invalidation of `p` by a new operation until it holds the lock of the generations. */
  lemma BeginInvalidate(ss: seq<State>, ls: seq<Label>, tid: Tid) returns (ss': seq<State>, ls': seq<Label>)
    requires Run(CONFIG, ss, ls) && Quiet(ss[|ls|]) && tid !in ss[|ls|].ops
    ensures Run(CONFIG, ss', ls') && Solo(ss'[|ls'|], tid, At(InvGens, Held))
    ensures var (s, s') := (ss[|ls|], ss'[|ls'|]);
            && s'.ops[tid].task == Invalidate("p") && s'.ops == s.ops[tid := s'.ops[tid]]
            && s'.mem == s.mem.(now := s'.mem.now)
  {
    var s := DoSpawn(ss[|ls|], tid, Invalidate("p"));
    Extend(ss, ls, Spawn(tid, Invalidate("p")), s);
    ss', ls' := ss + [s], ls + [Spawn(tid, Invalidate("p"))];
    ss', ls' := Acquire(ss', ls', tid, InvGens);
  }

  /** The same invalidation until it holds both locks. */
  lemma BumpOnce(ss: seq<State>, ls: seq<Label>, tid: Tid) returns (ss': seq<State>, ls': seq<Label>)
    requires Run(CONFIG, ss, ls) && Quiet(ss[|ls|]) && tid !in ss[|ls|].ops
    ensures Run(CONFIG, ss', ls') && Solo(ss'[|ls'|], tid, At(InvCache, Held))
    ensures var (s, s') := (ss[|ls|], ss'[|ls'|]);
            && s'.ops[tid].task == Invalidate("p") && s'.ops == s.ops[tid := s'.ops[tid]]
            && s'.mem.global == s.mem.global && s'.mem.cache == s.mem.cache
            && Get(s'.mem.gens, "p") == Get(s.mem.gens, "p") + 1
  {
    ss', ls' := BeginInvalidate(ss, ls, tid);
    ss', ls' := Move(ss', ls', tid, At(InvGens, Held));
    ss', ls' := Acquire(ss', ls', tid, InvCache);
  }

  /** A whole invalidation of `p` by a new operation. */
  lemma InvalidateOnce(ss: seq<State>, ls: seq<Label>, tid: Tid) returns (ss': seq<State>, ls': seq<Label>)
    requires Run(CONFIG, ss, ls) && Quiet(ss[|ls|]) && tid !in ss[|ls|].ops
    ensures Run(CONFIG, ss', ls') && Quiet(ss'[|ls'|])
    ensures var (s, s') := (ss[|ls|], ss'[|ls'|]);
            && HasInvalidated(s', tid) && s'.ops == s.ops[tid := s'.ops[tid]] && WasInvalidated(s.mem, s'.mem)
  {
    ss', ls' := BumpOnce(ss, ls, tid);
    ss', ls' := Move(ss', ls', tid, At(InvCache, Held));
  }

  /** The call of `cached_worktrees` by operation 0 is at `pc` in its round `r`, after r invalidations. */
  predicate InRound(s: State, pc: Pc, r: nat) {
    && Solo(s, 0, pc) && s.ops[0].task == CachedWorktrees("p") && s.ops[0].round == r
    && s.mem.global == 0 && s.mem.cache == map[]
  }

  /** The operations of two states are the same, and those of `tids` may differ or be new. */
  predicate OthersAre(s: State, s': State, tids: set<Tid>) {
    s'.ops.Keys == s.ops.Keys + tids && forall t :: t in s.ops && t !in tids ==> s'.ops[t] == s.ops[t]
  }

  /** A round until its first read and a look at the empty cache are done. */
  lemma RoundLooks(ss: seq<State>, ls: seq<Label>, r: nat) returns (ss': seq<State>, ls': seq<Label>)
    requires Run(CONFIG, ss, ls) && InRound(ss[|ls|], GenLoad(Outer), r) && Get(ss[|ls|].mem.gens, "p") == r
    ensures Run(CONFIG, ss', ls') && InRound(ss'[|ls'|], GenLoad(Inner), r) && Get(ss'[|ls'|].mem.gens, "p") == r
    ensures ss'[|ls'|].ops[0].outer.gen == Generation(0, r) && OthersAre(ss[|ls|], ss'[|ls'|], {0})
  {
    ss', ls' := Move(ss, ls, 0, GenLoad(Outer));
    ss', ls' := Acquire(ss', ls', 0, GenRead(Outer));
    ss', ls' := Move(ss', ls', 0, At(GenRead(Outer), Held));
    ss', ls' := Acquire(ss', ls', 0, CacheRead);
    ss', ls' := Move(ss', ls', 0, At(CacheRead, Held));
  }

  /** The round goes on until it is discovering. */
  lemma RoundDiscovers(ss: seq<State>, ls: seq<Label>, r: nat) returns (ss': seq<State>, ls': seq<Label>)
    requires Run(CONFIG, ss, ls) && InRound(ss[|ls|], GenLoad(Outer), r) && Get(ss[|ls|].mem.gens, "p") == r
    ensures Run(CONFIG, ss', ls') && InRound(ss'[|ls'|], Discovering, r) && Get(ss'[|ls'|].mem.gens, "p") == r
    ensures ss'[|ls'|].ops[0].outer.gen == ss'[|ls'|].ops[0].inner.gen == Generation(0, r)
    ensures OthersAre(ss[|ls|], ss'[|ls'|], {0})
  {
    ss', ls' := RoundLooks(ss, ls, r);
    ss', ls' := Move(ss', ls', 0, GenLoad(Inner));
    ss', ls' := Acquire(ss', ls', 0, GenRead(Inner));
    ss', ls' := Move(ss', ls', 0, At(GenRead(Inner), Held));
    ss', ls' := Move(ss', ls', 0, DiscoverStart);
  }

  /** After an invalidation the round stores nothing. */
  lemma RoundSkipsStore(ss: seq<State>, ls: seq<Label>, r: nat) returns (ss': seq<State>, ls': seq<Label>)
    requires Run(CONFIG, ss, ls) && InRound(ss[|ls|], Discovering, r) && Get(ss[|ls|].mem.gens, "p") == r + 1
    requires ss[|ls|].ops[0].outer.gen == ss[|ls|].ops[0].inner.gen == Generation(0, r)
    ensures Run(CONFIG, ss', ls') && InRound(ss'[|ls'|], GenLoad(Final), r) && Get(ss'[|ls'|].mem.gens, "p") == r + 1
    ensures ss'[|ls'|].ops[0].outer.gen == Generation(0, r) && OthersAre(ss[|ls|], ss'[|ls'|], {0})
  {
    ss', ls' := Move(ss, ls, 0, Discovering);
    ss', ls' := Acquire(ss', ls', 0, StoreGens);
    ss', ls' := Move(ss', ls', 0, At(StoreGens, Held));
  }

  /** What follows a round that was invalidated. */
  function AfterRound(r: nat): Pc {
    if r + 1 < MAX_ROUNDS then GenLoad(Outer) else Done(Unavailable)
  }

  lemma RoundFails(ss: seq<State>, ls: seq<Label>, r: nat) returns (ss': seq<State>, ls': seq<Label>)
    requires Run(CONFIG, ss, ls) && InRound(ss[|ls|], GenLoad(Final), r) && Get(ss[|ls|].mem.gens, "p") == r + 1
    requires ss[|ls|].ops[0].outer.gen == Generation(0, r)
    ensures Run(CONFIG, ss', ls') && InRound(ss'[|ls'|], AfterRound(r), r + 1)
    ensures Get(ss'[|ls'|].mem.gens, "p") == r + 1 && OthersAre(ss[|ls|], ss'[|ls'|], {0})
  {
    ss', ls' := Move(ss, ls, 0, GenLoad(Final));
    ss', ls' := Acquire(ss', ls', 0, GenRead(Final));
    ss', ls' := Move(ss', ls', 0, At(GenRead(Final), Held));
  }

  /** A whole round, invalidated once while it discovers. */
  lemma OneRound(ss: seq<State>, ls: seq<Label>, r: nat) returns (ss': seq<State>, ls': seq<Label>)
    requires Run(CONFIG, ss, ls) && InRound(ss[|ls|], GenLoad(Outer), r) && Get(ss[|ls|].mem.gens, "p") == r
    requires r + 1 !in ss[|ls|].ops
    ensures Run(CONFIG, ss', ls') && InRound(ss'[|ls'|], AfterRound(r), r + 1)
    ensures Get(ss'[|ls'|].mem.gens, "p") == r + 1 && HasInvalidated(ss'[|ls'|], r + 1)
    ensures OthersAre(ss[|ls|], ss'[|ls'|], {0, r + 1})
  {
    ss', ls' := RoundDiscovers(ss, ls, r);
    ss', ls' := InvalidateOnce(ss', ls', r + 1);
    ss', ls' := RoundSkipsStore(ss', ls', r);
    ss', ls' := RoundFails(ss', ls', r);
  }

  lemma FirstRound() returns (ss: seq<State>, ls: seq<Label>)
    ensures Run(CONFIG, ss, ls) && InRound(ss[|ls|], GenLoad(Outer), 1) && Get(ss[|ls|].mem.gens, "p") == 1
    ensures ss[|ls|].ops.Keys == {0, 1} && HasInvalidated(ss[|ls|], 1)
  {
    var s := DoSpawn(INIT, 0, CachedWorktrees("p"));
    Extend([INIT], [], Spawn(0, CachedWorktrees("p")), s);
    ss, ls := OneRound([INIT] + [s], [] + [Spawn(0, CachedWorktrees("p"))], 0);
  }

  /** There is a run with a call of `cached_worktrees` and three invalidations in which the call gives up. */
  lemma ThreeInvalidationsSuffice() returns (ss: seq<State>, ls: seq<Label>)
    ensures Run(CONFIG, ss, ls) && ss[|ls|].ops.Keys == {0, 1, 2, 3}
    ensures ss[|ls|].ops[0].task == CachedWorktrees("p") && ss[|ls|].ops[0].pc == Done(Unavailable)
    ensures HasInvalidated(ss[|ls|], 1) && HasInvalidated(ss[|ls|], 2) && HasInvalidated(ss[|ls|], 3)
  {
    ss, ls := FirstRound();
    ss, ls := OneRound(ss, ls, 1);
    ss, ls := OneRound(ss, ls, 2);
  }
}
