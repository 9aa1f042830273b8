/** What every step of the cache machine keeps. */
module CacheInvariant {
  import opened Prelude
  import opened CacheMachine

  // ---------------------------------------------------------------- locks

  /** `t` owns the lock exactly as its program counter says. */
  ghost predicate Owned(lock: RwLock, id: LockId, ops: map<Tid, Op>, t: Tid) {
    && (t in lock.readers <==> t in ops && Holds(id, ops[t].pc) == Some(Shared))
    && (lock.writer == Some(t) <==> t in ops && Holds(id, ops[t].pc) == Some(Exclusive))
  }

  ghost predicate Waiting(lock: RwLock, id: LockId, ops: map<Tid, Op>, w: Waiter) {
    w in lock.queue <==> w.tid in ops && Waits(id, ops[w.tid].pc) == Some(w.mode)
  }

  ghost predicate DistinctTids(queue: seq<Waiter>) {
    forall i, j :: 0 <= i < j < |queue| ==> queue[i].tid != queue[j].tid
  }

  /** A lock's owners and queue are exactly the operations whose program counters say so. */
  ghost predicate LockInv(lock: RwLock, id: LockId, ops: map<Tid, Op>) {
    && (forall t {:trigger Owned(lock, id, ops, t)} :: Owned(lock, id, ops, t))
    && (lock.writer.Some? ==> lock.readers == {})
    && (forall w {:trigger Waiting(lock, id, ops, w)} :: Waiting(lock, id, ops, w))
    && DistinctTids(lock.queue)
  }

  ghost predicate PcOn(ops: map<Tid, Op>, tid: Tid, id: LockId, holds: Option<Mode>, waits: Option<Mode>) {
    if tid in ops then Holds(id, ops[tid].pc) == holds && Waits(id, ops[tid].pc) == waits
    else holds == None && waits == None
  }

  lemma LockSame(lock: RwLock, id: LockId, ops: map<Tid, Op>, tid: Tid, op: Op)
    requires LockInv(lock, id, ops)
    requires PcOn(ops, tid, id, Holds(id, op.pc), Waits(id, op.pc))
    ensures LockInv(lock, id, ops[tid := op])
  {
    var ops' := ops[tid := op];
    forall t ensures Owned(lock, id, ops', t) { assert Owned(lock, id, ops, t); }
    forall w ensures Waiting(lock, id, ops', w) { assert Waiting(lock, id, ops, w); }
  }

  lemma LockEnqueue(lock: RwLock, id: LockId, ops: map<Tid, Op>, tid: Tid, op: Op, mode: Mode)
    requires LockInv(lock, id, ops)
    requires PcOn(ops, tid, id, Holds(id, op.pc), None)
    requires Waits(id, op.pc) == Some(mode)
    ensures LockInv(Enqueue(lock, Waiter(tid, mode)), id, ops[tid := op])
  {
    var lock', ops' := Enqueue(lock, Waiter(tid, mode)), ops[tid := op];
    forall t ensures Owned(lock', id, ops', t) { assert Owned(lock, id, ops, t); }
    forall w ensures Waiting(lock', id, ops', w) { assert Waiting(lock, id, ops, w); }
    forall i | 0 <= i < |lock.queue| ensures lock.queue[i].tid != tid {
      assert Waiting(lock, id, ops, lock.queue[i]);
    }
  }

  lemma LockGrant(lock: RwLock, id: LockId, ops: map<Tid, Op>, tid: Tid, op: Op)
    requires LockInv(lock, id, ops)
    requires CanGrant(lock, tid)
    requires PcOn(ops, tid, id, None, Some(lock.queue[0].mode))
    requires Holds(id, op.pc) == Some(lock.queue[0].mode) && Waits(id, op.pc) == None
    ensures LockInv(Grant(lock), id, ops[tid := op])
  {
    var lock', ops' := Grant(lock), ops[tid := op];
    assert lock.queue == [lock.queue[0]] + lock'.queue;
    forall t ensures Owned(lock', id, ops', t) { assert Owned(lock, id, ops, t); }
    forall w ensures Waiting(lock', id, ops', w) { assert Waiting(lock, id, ops, w); }
  }

  lemma LockRelease(lock: RwLock, id: LockId, ops: map<Tid, Op>, tid: Tid, op: Op)
    requires LockInv(lock, id, ops)
    requires tid in ops && Waits(id, ops[tid].pc) == None
    requires Holds(id, op.pc) == None && Waits(id, op.pc) == None
    ensures LockInv(Release(lock, tid), id, ops[tid := op])
  {
    var lock', ops' := Release(lock, tid), ops[tid := op];
    forall t ensures Owned(lock', id, ops', t) { assert Owned(lock, id, ops, t); }
    forall w ensures Waiting(lock', id, ops', w) { assert Waiting(lock, id, ops, w); }
  }

  lemma {:induction false} UnqueueIn(queue: seq<Waiter>, tid: Tid, w: Waiter)
    ensures w in Unqueue(queue, tid) <==> w in queue && w.tid != tid
  {
    if queue != [] {
      UnqueueIn(queue[1..], tid, w);
      assert queue == [queue[0]] + queue[1..];
    }
  }

  lemma {:induction false} UnqueueDistinct(queue: seq<Waiter>, tid: Tid)
    requires DistinctTids(queue)
    ensures DistinctTids(Unqueue(queue, tid))
  {
    if queue != [] {
      var rest := Unqueue(queue[1..], tid);
      UnqueueDistinct(queue[1..], tid);
      forall j | 0 <= j < |rest| ensures rest[j].tid != queue[0].tid {
        UnqueueIn(queue[1..], tid, rest[j]);
      }
    }
  }

  lemma LockForget(lock: RwLock, id: LockId, ops: map<Tid, Op>, tid: Tid, op: Op)
    requires LockInv(lock, id, ops)
    requires tid in ops
    requires Holds(id, op.pc) == None && Waits(id, op.pc) == None
    ensures LockInv(Forget(lock, tid), id, ops[tid := op])
  {
    var lock', ops' := Forget(lock, tid), ops[tid := op];
    UnqueueDistinct(lock.queue, tid);
    forall t ensures Owned(lock', id, ops', t) { assert Owned(lock, id, ops, t); }
    forall w ensures Waiting(lock', id, ops', w) {
      assert Waiting(lock, id, ops, w);
      UnqueueIn(lock.queue, tid, w);
    }
  }

  // ---------------------------------------------------------------- observations

  /**
   What is known of a generation that was read for `k`.  The two parts are read at different
   times, and the project counters restart from zero, so equal pairs alone would prove nothing;
   but an observed pair that is the current pair was read after the last invalidation.
   */
  ghost predicate ObsOk(m: Memory, k: Key, o: Observation) {
    && o.gen.global <= m.global
    && o.readAt <= m.now
    && (o.gen.global == m.global ==> !m.clearing && o.gen.project <= Get(m.gens, k))
    && (o.gen == Current(m, k) ==> BumpedAt(m, k) <= o.readAt)
    && (o.readAt < DoneAt(m, k) ==> o.readAt < BumpedAt(m, k))
    && (Covers(m.pending, k) ==> o.readAt < BumpedAt(m, k))
  }

  ghost predicate ListingOk(m: Memory, k: Key, l: Listing) {
    && ObsOk(m, k, l.seen)
    && l.seen.readAt < l.startedAt <= m.now
    && l.startedAt in m.discoveries
    && m.discoveries[l.startedAt] == k
  }

  /**
   A cached entry postdates every completed invalidation of its key.  Its generation is the
   current one unless an invalidation of the key is about to evict it or was dropped before it did.
   */
  ghost predicate EntryOk(m: Memory, k: Key, e: Entry) {
    && ListingOk(m, k, e.listing)
    && DoneAt(m, k) <= e.listing.seen.readAt
    && e.loadedAt <= m.clock
    && (if Covers(m.pending, k) || k in m.abandoned
        then e.listing.seen.readAt < BumpedAt(m, k)
        else e.listing.seen.gen == Current(m, k))
  }

  ghost predicate TimesOk(m: Memory, k: Key) {
    BumpedAt(m, k) <= m.now && DoneAt(m, k) <= m.now && ObsOk(m, k, OBS0)
  }

  ghost predicate MemOk(cfg: Config, m: Memory) {
    && (forall k {:trigger EntryOk(m, k, m.cache[k])} :: k in m.cache ==> EntryOk(m, k, m.cache[k]))
    && |m.cache.Keys| <= cfg.maxEntries
    && (forall t :: t in m.discoveries ==> t <= m.now)
    && (forall k {:trigger TimesOk(m, k)} :: TimesOk(m, k))
    && (m.clearing ==> m.pending == All)
  }

  // ---------------------------------------------------------------- operations

  predicate PcFits(task: Task, pc: Pc) {
    match pc
    case GenLoad(site) => task.CachedWorktrees? || (task.Refresh? && site == Inner)
    case At(place, _) =>
      (match place
       case GenRead(site) => task.CachedWorktrees? || (task.Refresh? && site == Inner)
       case CacheRead => task.CachedWorktrees?
       case StoreGens => task.CachedWorktrees? || task.Refresh?
       case StoreCache => task.CachedWorktrees? || task.Refresh?
       case _ => task.Invalidate? || task.InvalidateAll?)
    case TtlCheck => task.CachedWorktrees?
    case DiscoverStart => task.CachedWorktrees? || task.Refresh?
    case Discovering => task.CachedWorktrees? || task.Refresh?
    case Clearing => task.InvalidateAll?
    case Done(result) =>
      (result.Invalidated? ==> task.Invalidate? || task.InvalidateAll?) &&
      (result.Unavailable? ==> task.CachedWorktrees?) &&
      (result.Listed? ==> task.CachedWorktrees? || task.Refresh?)
  }

  predicate PostBump(pc: Pc) {
    pc == Clearing || (pc.At? && pc.place == InvCache)
  }

  predicate AtGenRead(pc: Pc, site: Site) {
    pc.At? && pc.place == GenRead(site)
  }

  predicate Ended(pc: Pc) {
    pc.Done?
  }

  /** The operation holds a cache entry it may still return. */
  predicate HasHit(pc: Pc) {
    pc == TtlCheck || pc == GenLoad(Recheck) || AtGenRead(pc, Recheck)
  }

  /** The operation holds a discovered listing it may still return. */
  predicate HasListing(pc: Pc) {
    (pc.At? && (pc.place == StoreGens || pc.place == StoreCache)) || pc == GenLoad(Final) || AtGenRead(pc, Final)
  }

  predicate BeforeOuterRead(pc: Pc) {
    pc == GenLoad(Outer) || AtGenRead(pc, Outer)
  }

  /** The listing the operation holds and may still return, or is still collecting. */
  function HeldListing(op: Op): Option<Listing> {
    if HasHit(op.pc) then Some(op.hit.listing)
    else if HasListing(op.pc) then Some(op.listing)
    else if op.pc == Discovering then Some(Listing([], op.startedAt, op.inner))
    else if op.pc.Done? && op.pc.result.Listed? then Some(op.pc.result.listing)
    else None
  }

  ghost predicate HeldOk(m: Memory, k: Key, doneSeen: nat, held: Option<Listing>) {
    held.Some? ==> ListingOk(m, k, held.value) && doneSeen <= held.value.seen.readAt
  }

  ghost predicate DataOk(m: Memory, op: Op) {
    var k := KeyOf(op.task);
    && op.loaded <= m.global
    && op.begunAt <= m.now
    && op.freshAt <= m.now
    && ObsOk(m, k, op.outer)
    && ObsOk(m, k, op.inner)
    && HeldOk(m, k, op.doneSeen, HeldListing(op))
    && (HeldListing(op).Some? || op.pc == DiscoverStart ==> op.begunAt < op.freshAt)
    && (op.pc == DiscoverStart ==> op.doneSeen <= op.inner.readAt)
    && (HasListing(op.pc) ==> op.listing.seen == op.inner)
    && (op.pc.At? && op.pc.place == StoreCache ==> op.inner.gen == Current(m, k))
  }

  /** Every failed round of `cached_worktrees` saw an invalidation of its own take effect. */
  ghost predicate RoundOk(m: Memory, op: Op) {
    var k := KeyOf(op.task);
    op.task.CachedWorktrees? ==>
      && op.startVersion + op.round <= Version(m, k)
      && (op.pc == Done(Unavailable) ==> op.round == MAX_ROUNDS)
      && (!Ended(op.pc) ==> op.round < MAX_ROUNDS)
      && (op.pc != GenLoad(Outer) && !Ended(op.pc) ==>
            && op.startVersion + op.round <= op.roundVersion <= Version(m, k)
            && (AtGenRead(op.pc, Outer) || AtGenRead(op.pc, Recheck) || AtGenRead(op.pc, Final) ==>
                  op.roundVersion == Version(m, k) ==> op.loaded == m.global)
            && (!BeforeOuterRead(op.pc) && op.roundVersion == Version(m, k) ==>
                  op.outer.gen == Current(m, k) && !m.clearing))
  }

  ghost predicate OpOk(m: Memory, op: Op) {
    PcFits(op.task, op.pc) && DataOk(m, op) && RoundOk(m, op)
  }

  ghost predicate OpsOk(m: Memory, ops: map<Tid, Op>) {
    forall t {:trigger OpOk(m, ops[t])} :: t in ops ==> OpOk(m, ops[t])
  }

  /** `pending` and `clearing` describe `t` if `t` is an invalidator past its bump. */
  ghost predicate PendingFor(m: Memory, ops: map<Tid, Op>, t: Tid) {
    t in ops ==>
      && (PostBump(ops[t].pc) ==> m.pending == ScopeOf(ops[t].task))
      && (ops[t].pc == Clearing ==> m.clearing)
  }

  /** `pending` and `clearing` describe the invalidator that holds the write lock, if any. */
  ghost predicate PendingOk(s: State) {
    && (forall t {:trigger PendingFor(s.mem, s.ops, t)} :: PendingFor(s.mem, s.ops, t))
    && (s.mem.pending != Nothing || s.mem.clearing ==>
          && s.gensLock.writer.Some?
          && s.gensLock.writer.value in s.ops
          && PostBump(s.ops[s.gensLock.writer.value].pc)
          && (s.mem.clearing ==> s.ops[s.gensLock.writer.value].pc == Clearing))
  }

  ghost predicate LocksOk(s: State) {
    LockInv(s.gensLock, Gens, s.ops) && LockInv(s.cacheLock, Cache, s.ops)
  }

  ghost predicate Inv(cfg: Config, s: State) {
    LocksOk(s) && PendingOk(s) && MemOk(cfg, s.mem) && OpsOk(s.mem, s.ops)
  }
}
