/** Every step of the cache machine keeps its invariant. */
module CacheSteps {
  import opened Prelude
  import opened CacheMachine
  import opened CacheInvariant

  // ---------------------------------------------------------------- changes to the shared memory

  /** Nothing that an observation depends on changed. */
  ghost predicate Quiet(m: Memory, m': Memory) {
    && m'.global == m.global && m'.gens == m.gens && m'.counts == m.counts
    && m'.bumped == m.bumped && m'.bumpedAll == m.bumpedAll
    && m'.done == m.done && m'.doneAll == m.doneAll
    && m'.pending == m.pending && m'.clearing == m.clearing
    && m.now <= m'.now && m.clock <= m'.clock
    && (forall t :: t in m.discoveries ==> t in m'.discoveries && m'.discoveries[t] == m.discoveries[t])
  }

  lemma QuietData(m: Memory, m': Memory, op: Op)
    requires Quiet(m, m') && DataOk(m, op)
    ensures DataOk(m', op)
  {
  }

  lemma QuietRound(m: Memory, m': Memory, op: Op)
    requires Quiet(m, m') && RoundOk(m, op)
    ensures RoundOk(m', op)
  {
  }

  lemma QuietOp(m: Memory, m': Memory, op: Op)
    requires Quiet(m, m') && OpOk(m, op)
    ensures OpOk(m', op)
  {
    QuietData(m, m', op);
    QuietRound(m, m', op);
  }

  lemma QuietEntry(m: Memory, m': Memory, k: Key, e: Entry)
    requires Quiet(m, m') && EntryOk(m, k, e) && (k in m.abandoned <==> k in m'.abandoned)
    ensures EntryOk(m', k, e)
  {
  }

  lemma QuietMem(cfg: Config, m: Memory, m': Memory)
    requires Quiet(m, m') && MemOk(cfg, m)
    requires m'.cache == m.cache && m'.abandoned == m.abandoned
    requires forall t :: t in m'.discoveries ==> t <= m'.now
    ensures MemOk(cfg, m')
  {
    forall k | k in m'.cache ensures EntryOk(m', k, m'.cache[k]) {
      assert EntryOk(m, k, m.cache[k]);
      QuietEntry(m, m', k, m.cache[k]);
    }
    forall k ensures TimesOk(m', k) { assert TimesOk(m, k); }
  }

  /** The ways an invalidation changes the memory; each is followed by the tick of its step. */
  datatype Change = TakeOne(key: Key) | TakeAll | Wipe | RemoveOne(key: Key) | RemoveAll | GiveUp

  function Changed(m: Memory, c: Change, time: nat): Memory {
    Tick(match c
         case TakeOne(k) => BumpKey(m, k)
         case TakeAll => BumpGlobal(m)
         case Wipe => ClearGens(m)
         case RemoveOne(k) => EvictKey(m, k)
         case RemoveAll => EvictAll(m)
         case GiveUp => Abandon(m), time)
  }

  /** When each change happens. */
  ghost predicate ChangeFits(m: Memory, c: Change) {
    match c
    case TakeOne(_) => m.pending == Nothing && !m.clearing
    case TakeAll => m.pending == Nothing && !m.clearing
    case Wipe => m.pending == All && m.clearing
    case RemoveOne(k) => m.pending == One(k) && !m.clearing
    case RemoveAll => m.pending == All && !m.clearing
    case GiveUp => m.pending != Nothing && !m.clearing
  }

  predicate MovesGeneration(c: Change) {
    c.TakeOne? || c.TakeAll? || c.Wipe?
  }

  lemma ChangedObs(m: Memory, c: Change, time: nat, k: Key, o: Observation)
    requires ChangeFits(m, c) && ObsOk(m, k, o)
    requires TimesOk(m, k)
    ensures ObsOk(Changed(m, c, time), k, o)
  {
  }

  lemma ChangedOp(m: Memory, c: Change, time: nat, op: Op, m': Memory)
    requires ChangeFits(m, c) && OpOk(m, op) && m' == Changed(m, c, time)
    requires TimesOk(m, KeyOf(op.task))
    requires MovesGeneration(c) ==> !(op.pc.At? && op.pc.place == StoreCache)
    ensures OpOk(m', op)
  {
    ChangedData(m, c, time, op, m');
    ChangedRound(m, c, time, op, m');
  }

  lemma ChangedRound(m: Memory, c: Change, time: nat, op: Op, m': Memory)
    requires ChangeFits(m, c) && RoundOk(m, op) && m' == Changed(m, c, time)
    ensures RoundOk(m', op)
  {
    var k := KeyOf(op.task);
    assert Version(m, k) <= Version(m', k);
    if Version(m, k) == Version(m', k) {
      assert m'.global == m.global;
      assert c.Wipe? ==> m.clearing;
      assert !c.Wipe? ==> Get(m'.gens, k) == Get(m.gens, k) && m'.clearing == m.clearing;
    }
  }

  lemma ChangedData(m: Memory, c: Change, time: nat, op: Op, m': Memory)
    requires ChangeFits(m, c) && DataOk(m, op) && m' == Changed(m, c, time)
    requires TimesOk(m, KeyOf(op.task))
    requires MovesGeneration(c) ==> !(op.pc.At? && op.pc.place == StoreCache)
    ensures DataOk(m', op)
  {
    var k := KeyOf(op.task);
    ChangedObs(m, c, time, k, op.outer);
    ChangedObs(m, c, time, k, op.inner);
    if HeldListing(op).Some? { ChangedObs(m, c, time, k, HeldListing(op).value.seen); }
  }

  lemma ChangedEntry(m: Memory, c: Change, time: nat, k: Key)
    requires ChangeFits(m, c) && k in m.cache && EntryOk(m, k, m.cache[k]) && time >= m.clock
    requires TimesOk(m, k)
    ensures var m' := Changed(m, c, time); k in m'.cache ==> EntryOk(m', k, m'.cache[k])
  {
    ChangedObs(m, c, time, k, m.cache[k].listing.seen);
  }

  lemma ChangedMem(cfg: Config, m: Memory, c: Change, time: nat)
    requires ChangeFits(m, c) && MemOk(cfg, m) && time >= m.clock
    ensures MemOk(cfg, Changed(m, c, time))
  {
    var m' := Changed(m, c, time);
    forall k | k in m'.cache ensures EntryOk(m', k, m'.cache[k]) {
      assert EntryOk(m, k, m.cache[k]) && TimesOk(m, k);
      ChangedEntry(m, c, time, k);
    }
    forall k ensures TimesOk(m', k) {
      assert TimesOk(m, k);
      ChangedTimes(m, c, time, k);
    }
    ChangedSizes(m, c, time);
  }

  lemma ChangedTimes(m: Memory, c: Change, time: nat, k: Key)
    requires ChangeFits(m, c) && TimesOk(m, k)
    ensures TimesOk(Changed(m, c, time), k)
  {
    ChangedObs(m, c, time, k, OBS0);
  }

  lemma ChangedSizes(m: Memory, c: Change, time: nat)
    requires ChangeFits(m, c)
    ensures var m' := Changed(m, c, time);
            && m'.cache.Keys <= m.cache.Keys && |m'.cache.Keys| <= |m.cache.Keys|
            && m'.discoveries == m.discoveries && m'.now == m.now + 1
            && (m'.clearing ==> m'.pending == All)
  {
    Smaller(Changed(m, c, time).cache.Keys, m.cache.Keys);
  }

  lemma Smaller<T>(a: set<T>, b: set<T>)
    requires a <= b
    ensures |a| <= |b|
  {
    if a != {} {
      var x :| x in a;
      Smaller(a - {x}, b - {x});
    }
  }

  // ---------------------------------------------------------------- locks

  /** How one move of an operation concerns one lock. */
  ghost predicate LockMove(id: LockId, before: Pc, after: Pc) {
    var (h, w, h', w') := (Holds(id, before), Waits(id, before), Holds(id, after), Waits(id, after));
    || (h' == h && w' == w && (h' == None || w == None) && w == None)
    || (w == None && w'.Some? && h' == h)
    || (h == None && w.Some? && h' == w && w' == None)
    || (h.Some? && w == None && h' == None && w' == None)
  }

  lemma MovesFit(cfg: Config, m: Memory, op: Op, env: Env, id: LockId)
    requires !op.pc.Done?
    ensures LockMove(id, op.pc, NextOp(cfg, m, op, env).pc)
  {
  }

  lemma LockMoves(lock: RwLock, id: LockId, ops: map<Tid, Op>, tid: Tid, op: Op)
    requires LockInv(lock, id, ops) && tid in ops
    requires LockMove(id, ops[tid].pc, op.pc)
    requires Waits(id, ops[tid].pc).Some? ==> CanGrant(lock, tid)
    ensures LockInv(NextLock(lock, id, tid, ops[tid].pc, op.pc), id, ops[tid := op])
  {
    var before, after := ops[tid].pc, op.pc;
    if Waits(id, before).Some? {
      assert Waiting(lock, id, ops, lock.queue[0]);
      LockGrant(lock, id, ops, tid, op);
    } else if Waits(id, after).Some? {
      LockEnqueue(lock, id, ops, tid, op, Waits(id, after).value);
    } else if Holds(id, before).Some? && Holds(id, after) == None {
      LockRelease(lock, id, ops, tid, op);
    } else {
      LockSame(lock, id, ops, tid, op);
    }
  }

  lemma ActLocks(cfg: Config, s: State, tid: Tid, env: Env)
    requires LocksOk(s) && CanAct(cfg, s, tid, env)
    ensures LocksOk(DoAct(cfg, s, tid, env))
  {
    var op := NextOp(cfg, s.mem, s.ops[tid], env);
    MovesFit(cfg, s.mem, s.ops[tid], env, Gens);
    MovesFit(cfg, s.mem, s.ops[tid], env, Cache);
    LockMoves(s.gensLock, Gens, s.ops, tid, op);
    LockMoves(s.cacheLock, Cache, s.ops, tid, op);
  }

  lemma ReadersExcludeInvalidators(s: State, tid: Tid)
    requires LocksOk(s) && PendingOk(s)
    requires tid in s.ops && Holds(Gens, s.ops[tid].pc) == Some(Shared)
    ensures s.gensLock.writer == None && s.mem.pending == Nothing && !s.mem.clearing
  {
    assert Owned(s.gensLock, Gens, s.ops, tid);
  }

  lemma WriterIsAlone(s: State, tid: Tid)
    requires LocksOk(s) && tid in s.ops && Holds(Gens, s.ops[tid].pc) == Some(Exclusive)
    ensures s.gensLock.writer == Some(tid)
    ensures forall t :: t in s.ops && t != tid ==> Holds(Gens, s.ops[t].pc) == None
  {
    assert Owned(s.gensLock, Gens, s.ops, tid);
    forall t | t in s.ops && t != tid ensures Holds(Gens, s.ops[t].pc) == None {
      assert Owned(s.gensLock, Gens, s.ops, t);
    }
  }

  // ---------------------------------------------------------------- the memory

  /** The change that a step of an invalidator makes, if any. */
  function ChangeOf(op: Op): Option<Change> {
    var k := KeyOf(op.task);
    match op.pc
    case Clearing => Some(Wipe)
    case At(place, stage) =>
      if stage == Held && place == InvGens then Some(if op.task.InvalidateAll? then TakeAll else TakeOne(k))
      else if stage == Held && place == InvCache then Some(if op.task.InvalidateAll? then RemoveAll else RemoveOne(k))
      else None
    case _ => None
  }

  lemma ChangesFit(s: State, tid: Tid, env: Env)
    requires LocksOk(s) && PendingOk(s) && tid in s.ops && PcFits(s.ops[tid].task, s.ops[tid].pc)
    requires ChangeOf(s.ops[tid]).Some?
    ensures Holds(Gens, s.ops[tid].pc) == Some(Exclusive)
    ensures ChangeFits(s.mem, ChangeOf(s.ops[tid]).value)
    ensures Tick(NextMem(s.mem, s.ops[tid], env), env.time) == Changed(s.mem, ChangeOf(s.ops[tid]).value, env.time)
  {
    WriterIsAlone(s, tid);
    assert PendingFor(s.mem, s.ops, tid);
  }

  lemma OthersChangeLittle(m: Memory, op: Op, env: Env)
    requires ChangeOf(op) == None
    ensures var m' := NextMem(m, op, env);
            || m' == m
            || (op.pc == DiscoverStart && m' == m.(discoveries := m.discoveries[m.now + 1 := KeyOf(op.task)]))
            || m' == m.(cache := m'.cache, abandoned := m'.abandoned)
  {
  }

  lemma OthersAreQuiet(m: Memory, op: Op, env: Env)
    requires ChangeOf(op) == None && env.time >= m.clock
    requires forall t :: t in m.discoveries ==> t <= m.now
    ensures Quiet(m, Tick(NextMem(m, op, env), env.time))
    ensures forall t :: t in NextMem(m, op, env).discoveries ==> t <= m.now + 1
  {
    OthersChangeLittle(m, op, env);
  }

  lemma StoreMem(cfg: Config, m: Memory, k: Key, l: Listing, time: nat, keep: set<Key>)
    requires MemOk(cfg, m) && ListingOk(m, k, l) && l.seen.gen == Current(m, k)
    requires m.pending == Nothing && !m.clearing && time >= m.clock
    requires Survivors(m.cache[k := Entry(time, l)], cfg.maxEntries, keep)
    ensures MemOk(cfg, Tick(StoreEntry(m, k, Entry(time, l), keep), time))
  {
    var m' := Tick(StoreEntry(m, k, Entry(time, l), keep), time);
    assert m'.cache.Keys == keep;
    forall j | j in m'.cache ensures EntryOk(m', j, m'.cache[j]) {
      if j != k {
        assert EntryOk(m, j, m.cache[j]);
        QuietEntry(m, m', j, m.cache[j]);
      } else {
        assert TimesOk(m, k);
        assert ObsOk(m', k, l.seen);
      }
    }
    forall j ensures TimesOk(m', j) { assert TimesOk(m, j); }
  }

  lemma ActMem(cfg: Config, s: State, tid: Tid, env: Env)
    requires Inv(cfg, s) && CanAct(cfg, s, tid, env)
    ensures MemOk(cfg, DoAct(cfg, s, tid, env).mem)
  {
    var op, m := s.ops[tid], s.mem;
    OpAt(s, tid);
    if ChangeOf(op).Some? {
      ChangesFit(s, tid, env);
      ChangedMem(cfg, m, ChangeOf(op).value, env.time);
    } else if op.pc == At(StoreCache, Held) {
      ReadersExcludeInvalidators(s, tid);
      StoreMem(cfg, m, KeyOf(op.task), op.listing, env.time, env.keep);
    } else {
      OthersAreQuiet(m, op, env);
      QuietMem(cfg, m, Tick(NextMem(m, op, env), env.time));
    }
  }

  // ---------------------------------------------------------------- the operation that moves

  lemma OpAt(s: State, tid: Tid)
    requires OpsOk(s.mem, s.ops) && tid in s.ops
    ensures OpOk(s.mem, s.ops[tid])
  {
  }

  lemma NewOpOk(m: Memory, task: Task)
    requires TimesOk(m, KeyOf(task))
    ensures OpOk(Tick(m, m.clock), NewOp(m, task))
  {
  }

  lemma ReadObs(m: Memory, k: Key, loaded: nat, time: nat)
    requires loaded <= m.global && TimesOk(m, k) && m.pending == Nothing && !m.clearing
    ensures ObsOk(Tick(m, time), k, Observation(Generation(loaded, Get(m.gens, k)), m.now + 1))
  {
  }

  lemma OuterDataOk(m: Memory, op: Op, obs: Observation, op': Op)
    requires DataOk(m, op) && op.pc == At(GenRead(Outer), Held) && ObsOk(m, KeyOf(op.task), obs)
    requires op' == op.(outer := obs, pc := At(CacheRead, Requesting))
    ensures DataOk(m, op')
  {
  }

  lemma InnerDataOk(m: Memory, op: Op, obs: Observation, doneSeen: nat, op': Op)
    requires DataOk(m, op) && op.pc == At(GenRead(Inner), Held) && ObsOk(m, KeyOf(op.task), obs)
    requires op.begunAt < m.now && doneSeen <= obs.readAt
    requires op' == op.(inner := obs, freshAt := m.now, doneSeen := doneSeen, pc := DiscoverStart)
    ensures DataOk(m, op')
  {
  }

  /** The read after a hit only decides whether to answer from the hit. */
  lemma RecheckDataOk(m: Memory, op: Op, op': Op)
    requires DataOk(m, op) && op.pc == At(GenRead(Recheck), Held)
    requires op' == op.(pc := Done(Listed(op.hit.listing))) || op' == op.(pc := GenLoad(Inner))
    ensures DataOk(m, op')
  {
  }

  /** The read after a refresh only decides whether to answer, to start over or to give up. */
  lemma FinalDataOk(m: Memory, op: Op, pc: Pc, round: nat, op': Op)
    requires DataOk(m, op) && op.pc == At(GenRead(Final), Held)
    requires pc == Done(Listed(op.listing)) || pc == GenLoad(Outer) || pc == Done(Unavailable)
    requires op' == op.(round := round, pc := pc)
    ensures DataOk(m, op')
  {
  }

  lemma GenReadDataOk(m: Memory, op: Op, site: Site, time: nat, m': Memory, op': Op)
    requires DataOk(m, op) && op.pc == At(GenRead(site), Held) && TimesOk(m, KeyOf(op.task))
    requires m.pending == Nothing && !m.clearing && time >= m.clock
    requires m' == Tick(m, time) && op' == AfterGenRead(m, op, site)
    ensures DataOk(m', op')
  {
    var obs := Observation(Generation(op.loaded, Get(m.gens, KeyOf(op.task))), m.now + 1);
    ReadObs(m, KeyOf(op.task), op.loaded, time);
    QuietData(m, m', op);
    match site
    case Outer => OuterDataOk(m', op, obs, op');
    case Inner => InnerDataOk(m', op, obs, DoneAt(m, KeyOf(op.task)), op');
    case Recheck => RecheckDataOk(m', op, op');
    case Final => FinalDataOk(m', op, op'.pc, op'.round, op');
  }

  lemma GenReadRoundOk(m: Memory, op: Op, site: Site, time: nat, m': Memory, op': Op)
    requires RoundOk(m, op) && PcFits(op.task, op.pc) && op.pc == At(GenRead(site), Held)
    requires !m.clearing
    requires m' == Tick(m, time) && op' == AfterGenRead(m, op, site)
    ensures PcFits(op'.task, op'.pc) && RoundOk(m', op')
  {
  }

  lemma CacheReadDataOk(m: Memory, op: Op, time: nat, m': Memory, op': Op)
    requires DataOk(m, op) && op.pc == At(CacheRead, Held) && time >= m.clock
    requires KeyOf(op.task) in m.cache ==> EntryOk(m, KeyOf(op.task), m.cache[KeyOf(op.task)])
    requires m' == Tick(m, time) && op' == AfterCacheRead(m, op)
    ensures DataOk(m', op')
  {
    QuietData(m, m', op);
  }

  lemma CacheReadRoundOk(m: Memory, op: Op, time: nat, m': Memory, op': Op)
    requires RoundOk(m, op) && PcFits(op.task, op.pc) && op.pc == At(CacheRead, Held)
    requires m' == Tick(m, time) && op' == AfterCacheRead(m, op)
    ensures PcFits(op'.task, op'.pc) && RoundOk(m', op')
  {
  }

  /** A move that needs nothing from the memory but what the operation already knew. */
  lemma PlainOpOk(cfg: Config, m: Memory, op: Op, env: Env, op': Op)
    requires OpOk(m, op) && ChangeOf(op) == None && !op.pc.Done? && op.pc != DiscoverStart
    requires op.pc.At? && op.pc.stage == Held ==> op.pc.place == StoreGens || op.pc.place == StoreCache
    requires op' == NextOp(cfg, m, op, env)
    ensures OpOk(m, op')
  {
    PlainDataOk(cfg, m, op, env, op');
    PlainRoundOk(cfg, m, op, env, op');
  }

  lemma PlainDataOk(cfg: Config, m: Memory, op: Op, env: Env, op': Op)
    requires PcFits(op.task, op.pc) && DataOk(m, op)
    requires ChangeOf(op) == None && !op.pc.Done? && op.pc != DiscoverStart
    requires op.pc.At? && op.pc.stage == Held ==> op.pc.place == StoreGens || op.pc.place == StoreCache
    requires op' == NextOp(cfg, m, op, env)
    ensures DataOk(m, op')
  {
    if op.pc.At? && op.pc.stage != Held {
      StageDataOk(m, op, op.pc.place, op'.pc.stage);
    } else if op.pc.At? {
      StoreDataOk(m, op, op.pc.place);
    } else if op.pc == Discovering {
      FoundDataOk(m, op, env.discovered);
    }
  }

  lemma StoreDataOk(m: Memory, op: Op, place: Place)
    requires PcFits(op.task, op.pc) && DataOk(m, op)
    requires op.pc == At(place, Held) && (place == StoreGens || place == StoreCache)
    ensures DataOk(m, AfterHeld(m, op, place))
  {
  }

  lemma FoundDataOk(m: Memory, op: Op, found: Option<seq<Worktree>>)
    requires DataOk(m, op) && op.pc == Discovering
    ensures DataOk(m, AfterDiscovery(op, found))
  {
  }

  /** Asking for a lock and getting it changes nothing that an operation knows. */
  lemma StageDataOk(m: Memory, op: Op, place: Place, stage: Stage)
    requires DataOk(m, op) && op.pc.At? && op.pc.place == place
    ensures DataOk(m, op.(pc := At(place, stage)))
  {
    assert HeldListing(op.(pc := At(place, stage))) == HeldListing(op);
  }

  lemma PlainRoundOk(cfg: Config, m: Memory, op: Op, env: Env, op': Op)
    requires PcFits(op.task, op.pc) && RoundOk(m, op)
    requires ChangeOf(op) == None && !op.pc.Done? && op.pc != DiscoverStart
    requires op.pc.At? && op.pc.stage == Held ==> op.pc.place == StoreGens || op.pc.place == StoreCache
    requires op' == NextOp(cfg, m, op, env)
    ensures PcFits(op'.task, op'.pc) && RoundOk(m, op')
  {
  }

  lemma StartOpOk(m: Memory, op: Op, time: nat, m': Memory, op': Op)
    requires OpOk(m, op) && op.pc == DiscoverStart && time >= m.clock
    requires m' == Tick(m.(discoveries := m.discoveries[m.now + 1 := KeyOf(op.task)]), time)
    requires op' == op.(startedAt := m.now + 1, pc := Discovering)
    ensures OpOk(m', op')
  {
  }

  lemma InvalidatorOpOk(m: Memory, op: Op, pc: Pc)
    requires OpOk(m, op) && (op.task.Invalidate? || op.task.InvalidateAll?)
    requires PcFits(op.task, pc) && !(pc.Done? && pc.result.Listed?)
    ensures OpOk(m, op.(pc := pc))
  {
  }

  predicate ReadsMemory(pc: Pc) {
    pc.At? && pc.stage == Held && (pc.place.GenRead? || pc.place == CacheRead)
  }

  lemma ReaderOpOk(cfg: Config, s: State, tid: Tid, env: Env, m': Memory, op': Op)
    requires Inv(cfg, s) && tid in s.ops && env.time >= s.mem.clock && ReadsMemory(s.ops[tid].pc)
    requires m' == Tick(s.mem, env.time) && op' == AfterHeld(s.mem, s.ops[tid], s.ops[tid].pc.place)
    ensures OpOk(m', op')
  {
    var op, m, k := s.ops[tid], s.mem, KeyOf(s.ops[tid].task);
    OpAt(s, tid);
    if op.pc.place == CacheRead {
      assert k in m.cache ==> EntryOk(m, k, m.cache[k]);
      CacheReadDataOk(m, op, env.time, m', op');
      CacheReadRoundOk(m, op, env.time, m', op');
    } else {
      assert TimesOk(m, k);
      ReadersExcludeInvalidators(s, tid);
      GenReadDataOk(m, op, op.pc.place.site, env.time, m', op');
      GenReadRoundOk(m, op, op.pc.place.site, env.time, m', op');
    }
  }

  /** A change moves its operation on and changes nothing else of it. */
  lemma ChangerMoves(cfg: Config, m: Memory, op: Op, env: Env)
    requires PcFits(op.task, op.pc) && ChangeOf(op).Some?
    ensures var op' := NextOp(cfg, m, op, env);
            && op' == op.(pc := op'.pc) && PcFits(op.task, op'.pc) && !(op'.pc.Done? && op'.pc.result.Listed?)
            && (op.task.Invalidate? || op.task.InvalidateAll?) && !(op.pc.At? && op.pc.place == StoreCache)
  {
  }

  lemma ChangedMover(m: Memory, c: Change, time: nat, op: Op, pc: Pc, m': Memory)
    requires ChangeFits(m, c) && OpOk(m, op) && m' == Changed(m, c, time) && TimesOk(m, KeyOf(op.task))
    requires (op.task.Invalidate? || op.task.InvalidateAll?) && !(op.pc.At? && op.pc.place == StoreCache)
    requires PcFits(op.task, pc) && !(pc.Done? && pc.result.Listed?)
    ensures OpOk(m', op.(pc := pc))
  {
    ChangedOp(m, c, time, op, m');
    InvalidatorOpOk(m', op, pc);
  }

  lemma ChangerOpOk(cfg: Config, s: State, tid: Tid, env: Env, m': Memory, op': Op)
    requires LocksOk(s) && PendingOk(s) && tid in s.ops && ChangeOf(s.ops[tid]).Some?
    requires OpOk(s.mem, s.ops[tid]) && TimesOk(s.mem, KeyOf(s.ops[tid].task))
    requires m' == Tick(NextMem(s.mem, s.ops[tid], env), env.time) && op' == NextOp(cfg, s.mem, s.ops[tid], env)
    ensures OpOk(m', op')
  {
    var op, m := s.ops[tid], s.mem;
    ChangesFit(s, tid, env);
    ChangerMoves(cfg, m, op, env);
    ChangedMover(m, ChangeOf(op).value, env.time, op, op'.pc, m');
  }

  lemma MoverOpOk(cfg: Config, m: Memory, op: Op, env: Env, m': Memory, op': Op)
    requires OpOk(m, op) && env.time >= m.clock && !op.pc.Done?
    requires forall t :: t in m.discoveries ==> t <= m.now
    requires ChangeOf(op) == None && !ReadsMemory(op.pc)
    requires m' == Tick(NextMem(m, op, env), env.time) && op' == NextOp(cfg, m, op, env)
    ensures OpOk(m', op')
  {
    if op.pc == DiscoverStart {
      StartOpOk(m, op, env.time, m', op');
    } else {
      PlainOpOk(cfg, m, op, env, op');
      OthersAreQuiet(m, op, env);
      QuietOp(m, m', op');
    }
  }

  lemma OwnOpOk(cfg: Config, s: State, tid: Tid, env: Env, m': Memory, op': Op)
    requires Inv(cfg, s) && CanAct(cfg, s, tid, env)
    requires m' == Tick(NextMem(s.mem, s.ops[tid], env), env.time) && op' == NextOp(cfg, s.mem, s.ops[tid], env)
    ensures OpOk(m', op')
  {
    OpAt(s, tid);
    assert TimesOk(s.mem, KeyOf(s.ops[tid].task));
    if ChangeOf(s.ops[tid]).Some? { ChangerOpOk(cfg, s, tid, env, m', op'); }
    else if ReadsMemory(s.ops[tid].pc) { ReaderOpOk(cfg, s, tid, env, m', op'); }
    else { MoverOpOk(cfg, s.mem, s.ops[tid], env, m', op'); }
  }

  // ---------------------------------------------------------------- the other operations

  /** An invalidator holds the write lock alone, so nobody else is about to store. */
  lemma NobodyStores(s: State, tid: Tid, t: Tid, env: Env)
    requires LocksOk(s) && PendingOk(s) && tid in s.ops && PcFits(s.ops[tid].task, s.ops[tid].pc)
    requires ChangeOf(s.ops[tid]).Some? && t in s.ops && t != tid
    ensures !(s.ops[t].pc.At? && s.ops[t].pc.place == StoreCache)
  {
    ChangesFit(s, tid, env);
    WriterIsAlone(s, tid);
  }

  lemma OtherOpOk(cfg: Config, s: State, tid: Tid, env: Env, t: Tid, m': Memory)
    requires Inv(cfg, s) && CanAct(cfg, s, tid, env) && t in s.ops && t != tid
    requires m' == Tick(NextMem(s.mem, s.ops[tid], env), env.time)
    ensures OpOk(m', s.ops[t])
  {
    var op, m := s.ops[tid], s.mem;
    OpAt(s, tid);
    OpAt(s, t);
    if ChangeOf(op).Some? {
      NobodyStores(s, tid, t, env);
      ChangesFit(s, tid, env);
      assert TimesOk(m, KeyOf(s.ops[t].task));
      ChangedOp(m, ChangeOf(op).value, env.time, s.ops[t], m');
    } else {
      OthersAreQuiet(m, op, env);
      QuietOp(m, m', s.ops[t]);
    }
  }

  lemma ActOps(cfg: Config, s: State, tid: Tid, env: Env)
    requires Inv(cfg, s) && CanAct(cfg, s, tid, env)
    ensures var s' := DoAct(cfg, s, tid, env); OpsOk(s'.mem, s'.ops)
  {
    var s' := DoAct(cfg, s, tid, env);
    forall t | t in s'.ops ensures OpOk(s'.mem, s'.ops[t]) {
      if t == tid { OwnOpOk(cfg, s, tid, env, s'.mem, s'.ops[tid]); } else { OtherOpOk(cfg, s, tid, env, t, s'.mem); }
    }
  }

  /** What a step does to `pending` and `clearing`. */
  lemma ActScope(m: Memory, op: Op, env: Env)
    requires PcFits(op.task, op.pc)
    ensures var m' := NextMem(m, op, env);
            && m'.pending == (if op.pc == At(InvGens, Held) then ScopeOf(op.task)
                              else if op.pc == At(InvCache, Held) then Nothing else m.pending)
            && m'.clearing == (if op.pc == At(InvGens, Held) && op.task.InvalidateAll? then true
                               else if op.pc == Clearing then false else m.clearing)
  {
    if ChangeOf(op) == None { OthersChangeLittle(m, op, env); } else { ChangesOfScope(m, KeyOf(op.task)); }
  }

  lemma ChangesOfScope(m: Memory, k: Key)
    ensures BumpGlobal(m).pending == All && BumpGlobal(m).clearing
    ensures BumpKey(m, k).pending == One(k) && BumpKey(m, k).clearing == m.clearing
    ensures ClearGens(m).pending == m.pending && !ClearGens(m).clearing
    ensures EvictKey(m, k).pending == EvictAll(m).pending == Nothing
    ensures EvictKey(m, k).clearing == EvictAll(m).clearing == m.clearing
  {
  }

  lemma ActPendingFor(cfg: Config, s: State, tid: Tid, env: Env, t: Tid)
    requires LocksOk(s) && PendingOk(s) && CanAct(cfg, s, tid, env) && PcFits(s.ops[tid].task, s.ops[tid].pc)
    ensures var s' := DoAct(cfg, s, tid, env); PendingFor(s'.mem, s'.ops, t)
  {
    ActScope(s.mem, s.ops[tid], env);
    if Holds(Gens, s.ops[tid].pc) == Some(Exclusive) { WriterIsAlone(s, tid); }
    assert PendingFor(s.mem, s.ops, t) && PendingFor(s.mem, s.ops, tid);
  }

  lemma ActPending(cfg: Config, s: State, tid: Tid, env: Env)
    requires LocksOk(s) && PendingOk(s) && CanAct(cfg, s, tid, env) && PcFits(s.ops[tid].task, s.ops[tid].pc)
    ensures PendingOk(DoAct(cfg, s, tid, env))
  {
    var s' := DoAct(cfg, s, tid, env);
    ActScope(s.mem, s.ops[tid], env);
    if Holds(Gens, s.ops[tid].pc) == Some(Exclusive) { WriterIsAlone(s, tid); }
    if Holds(Gens, s.ops[tid].pc) == Some(Shared) { ReadersExcludeInvalidators(s, tid); }
    forall t ensures PendingFor(s'.mem, s'.ops, t) { ActPendingFor(cfg, s, tid, env, t); }
  }

  // ---------------------------------------------------------------- all steps

  lemma SpawnKeeps(cfg: Config, s: State, tid: Tid, task: Task)
    requires Inv(cfg, s) && tid !in s.ops
    ensures Inv(cfg, DoSpawn(s, tid, task))
  {
    var s', op := DoSpawn(s, tid, task), NewOp(s.mem, task);
    LockSame(s.gensLock, Gens, s.ops, tid, op);
    LockSame(s.cacheLock, Cache, s.ops, tid, op);
    assert TimesOk(s.mem, KeyOf(task));
    NewOpOk(s.mem, task);
    QuietMem(cfg, s.mem, s'.mem);
    forall t | t in s'.ops ensures OpOk(s'.mem, s'.ops[t]) {
      if t != tid {
        OpAt(s, t);
        QuietOp(s.mem, s'.mem, s.ops[t]);
      }
    }
    forall t ensures PendingFor(s'.mem, s'.ops, t) { assert PendingFor(s.mem, s.ops, t); }
  }

  lemma DropMem(cfg: Config, s: State, tid: Tid)
    requires Inv(cfg, s) && CanDrop(s, tid)
    ensures MemOk(cfg, DoDrop(s, tid).mem)
    ensures forall t {:trigger s.ops[t]} :: t in s.ops ==> OpOk(DoDrop(s, tid).mem, s.ops[t])
  {
    var m' := DoDrop(s, tid).mem;
    if s.ops[tid].pc == At(InvCache, Queued) {
      WriterIsAlone(s, tid);
      assert PendingFor(s.mem, s.ops, tid);
      ChangedMem(cfg, s.mem, GiveUp, s.mem.clock);
    } else {
      QuietMem(cfg, s.mem, m');
    }
    forall t | t in s.ops ensures OpOk(m', s.ops[t]) {
      OpAt(s, t);
      assert TimesOk(s.mem, KeyOf(s.ops[t].task));
      if s.ops[tid].pc == At(InvCache, Queued) { ChangedOp(s.mem, GiveUp, s.mem.clock, s.ops[t], m'); }
      else { QuietOp(s.mem, m', s.ops[t]); }
    }
  }

  lemma DroppedOpOk(m: Memory, op: Op)
    requires OpOk(m, op)
    ensures OpOk(m, op.(pc := Done(Dropped)))
  {
  }

  lemma DropPending(s: State, tid: Tid)
    requires LocksOk(s) && PendingOk(s) && CanDrop(s, tid)
    ensures PendingOk(DoDrop(s, tid))
  {
    var s' := DoDrop(s, tid);
    if s.ops[tid].pc == At(InvCache, Queued) { WriterIsAlone(s, tid); }
    if s.gensLock.writer.Some? { assert Owned(s.gensLock, Gens, s.ops, s.gensLock.writer.value); }
    forall t ensures PendingFor(s'.mem, s'.ops, t) {
      assert PendingFor(s.mem, s.ops, t) && PendingFor(s.mem, s.ops, tid);
    }
  }

  lemma DropKeeps(cfg: Config, s: State, tid: Tid)
    requires Inv(cfg, s) && CanDrop(s, tid)
    ensures Inv(cfg, DoDrop(s, tid))
  {
    var s', op := DoDrop(s, tid), s.ops[tid].(pc := Done(Dropped));
    LockForget(s.gensLock, Gens, s.ops, tid, op);
    LockForget(s.cacheLock, Cache, s.ops, tid, op);
    DropPending(s, tid);
    DropMem(cfg, s, tid);
    forall t | t in s'.ops ensures OpOk(s'.mem, s'.ops[t]) {
      if t == tid { DroppedOpOk(s'.mem, s.ops[tid]); }
    }
  }

  lemma StepKeeps(cfg: Config, s: State, l: Label, s': State)
    requires Inv(cfg, s) && Step(cfg, s, l, s')
    ensures Inv(cfg, s')
  {
    match l
    case Spawn(tid, task) => SpawnKeeps(cfg, s, tid, task);
    case Drop(tid) => DropKeeps(cfg, s, tid);
    case Act(tid, env) =>
      OpAt(s, tid);
      ActLocks(cfg, s, tid, env);
      ActPending(cfg, s, tid, env);
      ActMem(cfg, s, tid, env);
      ActOps(cfg, s, tid, env);
  }

  lemma StepTicks(cfg: Config, s: State, l: Label, s': State)
    requires Step(cfg, s, l, s')
    ensures s'.mem.now == s.mem.now + 1
  {
  }

  lemma InitHolds(cfg: Config)
    ensures Inv(cfg, INIT)
  {
    forall k ensures TimesOk(INIT.mem, k) {}
    forall t ensures PendingFor(INIT.mem, INIT.ops, t) {}
    forall id: LockId ensures LockInv(FREE, id, INIT.ops) {
      forall t ensures Owned(FREE, id, INIT.ops, t) {}
      forall w ensures Waiting(FREE, id, INIT.ops, w) {}
    }
  }

  /** The invariant holds in every state of every run. */
  lemma {:induction false} RunKeeps(cfg: Config, ss: seq<State>, ls: seq<Label>, n: nat)
    requires Run(cfg, ss, ls) && n <= |ls|
    ensures Inv(cfg, ss[n]) && ss[n].mem.now == n
  {
    if n == 0 {
      InitHolds(cfg);
    } else {
      var i := n - 1;
      RunKeeps(cfg, ss, ls, i);
      assert StepAt(cfg, ss, ls, i);
      StepKeeps(cfg, ss[i], ls[i], ss[i + 1]);
      StepTicks(cfg, ss[i], ls[i], ss[i + 1]);
    }
  }
}
