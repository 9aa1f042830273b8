/**
 The worktree discovery cache as a labelled step machine.

 Any number of operations run at once; every label moves one of them by one step.  An
 operation runs without interruption between two steps only where the source does not wait.
 The two tokio locks are first-in first-out: a request joins the tail of the queue and only
 the head can be granted, so a reader waits behind an earlier writer.  A label can also drop
 an operation at one of its waits, as dropping its future does: its guards are released and
 nothing it did is undone.

 Fields marked "history" are read by no operation.  They only say when things happened:
 the step with index i has time i + 1.
 */
module CacheMachine {
  import opened Prelude

  const MAX_ROUNDS := 3

  type Key = string
  type Tid = nat

  datatype Config = Config(ttl: nat, maxEntries: nat)

  // ---------------------------------------------------------------- locks

  datatype Mode = Shared | Exclusive
  datatype LockId = Gens | Cache
  datatype Waiter = Waiter(tid: Tid, mode: Mode)

  datatype RwLock = RwLock(readers: set<Tid>, writer: Option<Tid>, queue: seq<Waiter>)

  const FREE := RwLock({}, None, [])

  function Enqueue(lock: RwLock, w: Waiter): RwLock {
    lock.(queue := lock.queue + [w])
  }

  predicate CanGrant(lock: RwLock, tid: Tid) {
    && lock.queue != []
    && lock.queue[0].tid == tid
    && lock.writer == None
    && (lock.queue[0].mode == Exclusive ==> lock.readers == {})
  }

  function Grant(lock: RwLock): RwLock
    requires lock.queue != []
  {
    var w := lock.queue[0];
    if w.mode == Shared then
      lock.(readers := lock.readers + {w.tid}, queue := lock.queue[1..])
    else
      lock.(writer := Some(w.tid), queue := lock.queue[1..])
  }

  function Release(lock: RwLock, tid: Tid): RwLock {
    lock.(readers := lock.readers - {tid},
          writer := if lock.writer == Some(tid) then None else lock.writer)
  }

  function Unqueue(queue: seq<Waiter>, tid: Tid): seq<Waiter> {
    if queue == [] then []
    else if queue[0].tid == tid then Unqueue(queue[1..], tid)
    else [queue[0]] + Unqueue(queue[1..], tid)
  }

  /** What dropping the future of `tid` does to a lock. */
  function Forget(lock: RwLock, tid: Tid): RwLock {
    Release(lock, tid).(queue := Unqueue(lock.queue, tid))
  }

  // ---------------------------------------------------------------- shared memory

  datatype Generation = Generation(global: nat, project: nat)

  /** A generation an operation read; `readAt` is the time of the read of its project part (history). */
  datatype Observation = Observation(gen: Generation, readAt: nat)

  /** A discovery result; `startedAt` and `seen` say when it began and after which generation read (history). */
  datatype Listing = Listing(worktrees: seq<Worktree>, startedAt: nat, seen: Observation)

  datatype Entry = Entry(loadedAt: nat, listing: Listing)

  /** The keys an invalidation concerns. */
  datatype Scope = Nothing | One(key: Key) | All

  predicate Covers(scope: Scope, k: Key) {
    scope == All || scope == One(k)
  }

  datatype Memory = Memory(
    global: nat,                  // the atomic counter
    gens: map<Key, nat>,          // per-project counters, behind the Gens lock
    cache: map<Key, Entry>,       // behind the Cache lock
    clock: nat,
    now: nat,                     // history: number of steps so far
    counts: map<Key, nat>,        // history: invalidations of one key that took effect
    bumped: map<Key, nat>,        // history: time of the last one
    bumpedAll: nat,               // history: time of the last global increment
    done: map<Key, nat>,          // history: time the last invalidation of one key completed
    doneAll: nat,                 // history: time the last invalidation of everything completed
    pending: Scope,               // history: what was bumped and not yet evicted
    clearing: bool,               // history: the global counter is bumped, the project counters not yet cleared
    abandoned: set<Key>,          // history: keys whose invalidation was dropped between bump and eviction
    discoveries: map<nat, Key>)   // history: which discovery started when

  function Get(m: map<Key, nat>, k: Key): nat {
    if k in m then m[k] else 0
  }

  function Current(m: Memory, k: Key): Generation {
    Generation(m.global, Get(m.gens, k))
  }

  /** How many invalidations that concern `k` took effect so far. */
  function Version(m: Memory, k: Key): nat {
    m.global + Get(m.counts, k)
  }

  /** When the last invalidation that concerns `k` took effect. */
  function BumpedAt(m: Memory, k: Key): nat {
    Max(Get(m.bumped, k), m.bumpedAll)
  }

  /** When the last invalidation that concerns `k` completed. */
  function DoneAt(m: Memory, k: Key): nat {
    Max(Get(m.done, k), m.doneAll)
  }

  function Tick(m: Memory, time: nat): Memory {
    m.(now := m.now + 1, clock := time)
  }

  function BumpKey(m: Memory, k: Key): Memory {
    m.(gens := m.gens[k := Get(m.gens, k) + 1],
       counts := m.counts[k := Get(m.counts, k) + 1],
       bumped := m.bumped[k := m.now + 1],
       pending := One(k))
  }

  function BumpGlobal(m: Memory): Memory {
    m.(global := m.global + 1, bumpedAll := m.now + 1, pending := All, clearing := true)
  }

  function ClearGens(m: Memory): Memory {
    m.(gens := map[], clearing := false)
  }

  function EvictKey(m: Memory, k: Key): Memory {
    m.(cache := m.cache - {k}, done := m.done[k := m.now + 1],
       pending := Nothing, abandoned := m.abandoned - {k})
  }

  function EvictAll(m: Memory): Memory {
    m.(cache := map[], doneAll := m.now + 1, pending := Nothing, abandoned := {})
  }

  /** A dropped invalidation leaves the entries it was about to evict. */
  function Abandon(m: Memory): Memory {
    m.(pending := Nothing,
       abandoned := m.abandoned + set k | k in m.cache && Covers(m.pending, k))
  }

  /** The keys that can be left when the oldest entry is removed until at most `maxEntries` remain. */
  ghost predicate Survivors(cache: map<Key, Entry>, maxEntries: nat, keep: set<Key>) {
    && keep <= cache.Keys
    && |keep| == Min(|cache.Keys|, maxEntries)
    && forall a, b :: a in keep && b in cache.Keys - keep ==> cache[b].loadedAt <= cache[a].loadedAt
  }

  function Keep(cache: map<Key, Entry>, keep: set<Key>): map<Key, Entry> {
    map k | k in cache && k in keep :: cache[k]
  }

  function StoreEntry(m: Memory, k: Key, e: Entry, keep: set<Key>): Memory {
    m.(cache := Keep(m.cache[k := e], keep), abandoned := m.abandoned - {k})
  }

  // ---------------------------------------------------------------- operations

  datatype Task = Refresh(key: Key) | CachedWorktrees(key: Key) | Invalidate(key: Key) | InvalidateAll

  function KeyOf(task: Task): Key {
    if task.InvalidateAll? then "" else task.key
  }

  function ScopeOf(task: Task): Scope {
    if task.InvalidateAll? then All else One(task.key)
  }

  datatype Result = Listed(listing: Listing) | DiscoveryFailed | Unavailable | Invalidated | Dropped

  /** The four reads of the generation: start of a round, after a hit, inside refresh, after refresh. */
  datatype Site = Outer | Recheck | Inner | Final

  datatype Place = GenRead(site: Site) | CacheRead | StoreGens | StoreCache | InvGens | InvCache
  datatype Stage = Requesting | Queued | Held

  datatype Pc =
    | GenLoad(site: Site)
    | At(place: Place, stage: Stage)
    | TtlCheck
    | DiscoverStart
    | Discovering
    | Clearing
    | Done(result: Result)

  function LockOf(place: Place): LockId {
    match place
    case GenRead(_) => Gens
    case StoreGens => Gens
    case InvGens => Gens
    case _ => Cache
  }

  function ModeOf(place: Place): Mode {
    match place
    case GenRead(_) => Shared
    case CacheRead => Shared
    case StoreGens => Shared
    case _ => Exclusive
  }

  /** The guard that an operation at `pc` owns on a lock. */
  function Holds(id: LockId, pc: Pc): Option<Mode> {
    match pc
    case Clearing => if id == Gens then Some(Exclusive) else None
    case At(place, stage) =>
      if LockOf(place) == id then
        if stage == Held then Some(ModeOf(place)) else None
      else if id == Gens && place == StoreCache then Some(Shared)
      else if id == Gens && place == InvCache then Some(Exclusive)
      else None
    case _ => None
  }

  /** The guard that an operation at `pc` is queued for. */
  function Waits(id: LockId, pc: Pc): Option<Mode> {
    if pc.At? && pc.stage == Queued && LockOf(pc.place) == id then Some(ModeOf(pc.place)) else None
  }

  datatype Op = Op(
    task: Task,
    pc: Pc,
    round: nat,
    loaded: nat,            // the global part of a generation being read
    outer: Observation,     // read at the start of the round
    inner: Observation,     // read inside refresh
    startedAt: nat,         // history: when this operation's discovery began
    listing: Listing,       // what refresh discovered
    hit: Entry,             // what the cache held
    begunAt: nat,           // history
    freshAt: nat,           // history: when freshness was last established
    doneSeen: nat,          // history: DoneAt at that time
    startVersion: nat,      // history: Version when the call began
    roundVersion: nat)      // history: Version when the round began

  const OBS0 := Observation(Generation(0, 0), 0)
  const LISTING0 := Listing([], 0, OBS0)

  function FirstPc(task: Task): Pc {
    match task
    case Refresh(_) => GenLoad(Inner)
    case CachedWorktrees(_) => GenLoad(Outer)
    case _ => At(InvGens, Requesting)
  }

  function NewOp(m: Memory, task: Task): Op {
    Op(task, FirstPc(task), 0, 0, OBS0, OBS0, 0, LISTING0, Entry(0, LISTING0),
       m.now + 1, 0, 0, Version(m, KeyOf(task)), 0)
  }

  // ---------------------------------------------------------------- states and steps

  datatype State = State(mem: Memory, gensLock: RwLock, cacheLock: RwLock, ops: map<Tid, Op>)

  const INIT := State(
    Memory(0, map[], map[], 0, 0, map[], map[], 0, map[], 0, Nothing, false, {}, map[]),
    FREE, FREE, map[])

  function Lock(s: State, id: LockId): RwLock {
    if id == Gens then s.gensLock else s.cacheLock
  }

  /** What a step takes from outside: the clock, what git answered, and the eviction order. */
  datatype Env = Env(time: nat, discovered: Option<seq<Worktree>>, keep: set<Key>)

  datatype Label = Spawn(tid: Tid, task: Task) | Act(tid: Tid, env: Env) | Drop(tid: Tid)

  // What a step makes of the operation that takes it.

  function AfterStore(op: Op): Op {
    op.(pc := if op.task.Refresh? then Done(Listed(op.listing)) else GenLoad(Final))
  }

  /** The load of the global part of a generation, which no lock protects. */
  function AfterLoad(m: Memory, op: Op, site: Site): Op {
    var loaded := op.(loaded := m.global, pc := At(GenRead(site), Requesting));
    if site == Outer then loaded.(roundVersion := Version(m, KeyOf(op.task))) else loaded
  }

  /** The read of the project part of a generation, and what the caller of `generation_for` does next. */
  function AfterGenRead(m: Memory, op: Op, site: Site): Op {
    var k := KeyOf(op.task);
    var obs := Observation(Generation(op.loaded, Get(m.gens, k)), m.now + 1);
    match site
    case Outer => op.(outer := obs, pc := At(CacheRead, Requesting))
    case Recheck =>
      op.(pc := if obs.gen == op.outer.gen then Done(Listed(op.hit.listing)) else GenLoad(Inner))
    case Inner =>
      op.(inner := obs, freshAt := m.now + 1, doneSeen := DoneAt(m, k), pc := DiscoverStart)
    case Final =>
      if obs.gen == op.outer.gen then op.(pc := Done(Listed(op.listing)))
      else if op.round + 1 < MAX_ROUNDS then op.(round := op.round + 1, pc := GenLoad(Outer))
      else op.(round := op.round + 1, pc := Done(Unavailable))
  }

  function AfterCacheRead(m: Memory, op: Op): Op {
    var k := KeyOf(op.task);
    if k in m.cache then
      op.(hit := m.cache[k], freshAt := m.now + 1, doneSeen := DoneAt(m, k), pc := TtlCheck)
    else
      op.(pc := GenLoad(Inner))
  }

  function AfterTtlCheck(cfg: Config, op: Op, time: nat): Op {
    op.(pc := GenLoad(if time - op.hit.loadedAt < cfg.ttl then Recheck else Inner))
  }

  function AfterDiscovery(op: Op, found: Option<seq<Worktree>>): Op {
    match found
    case None => op.(pc := Done(DiscoveryFailed))
    case Some(ws) => op.(listing := Listing(ws, op.startedAt, op.inner), pc := At(StoreGens, Requesting))
  }

  predicate StillCurrent(m: Memory, op: Op) {
    Current(m, KeyOf(op.task)) == op.inner.gen
  }

  function AfterHeld(m: Memory, op: Op, place: Place): Op {
    match place
    case GenRead(site) => AfterGenRead(m, op, site)
    case CacheRead => AfterCacheRead(m, op)
    case StoreGens => if StillCurrent(m, op) then op.(pc := At(StoreCache, Requesting)) else AfterStore(op)
    case StoreCache => AfterStore(op)
    case InvGens => op.(pc := if op.task.InvalidateAll? then Clearing else At(InvCache, Requesting))
    case InvCache => op.(pc := Done(Invalidated))
  }

  function NextOp(cfg: Config, m: Memory, op: Op, env: Env): Op {
    match op.pc
    case At(place, stage) =>
      (match stage
       case Requesting => op.(pc := At(place, Queued))
       case Queued => op.(pc := At(place, Held))
       case Held => AfterHeld(m, op, place))
    case GenLoad(site) => AfterLoad(m, op, site)
    case TtlCheck => AfterTtlCheck(cfg, op, env.time)
    case DiscoverStart => op.(startedAt := m.now + 1, pc := Discovering)
    case Discovering => AfterDiscovery(op, env.discovered)
    case Clearing => op.(pc := At(InvCache, Requesting))
    case Done(_) => op
  }

  /** What a step makes of the shared memory, before time moves on. */
  function NextMem(m: Memory, op: Op, env: Env): (m': Memory)
    ensures m'.now == m.now
  {
    var k := KeyOf(op.task);
    match op.pc
    case At(place, stage) =>
      if stage != Held then m
      else if place == StoreCache && StillCurrent(m, op) then
        StoreEntry(m, k, Entry(env.time, op.listing), env.keep)
      else if place == InvGens then
        if op.task.InvalidateAll? then BumpGlobal(m) else BumpKey(m, k)
      else if place == InvCache then
        if op.task.InvalidateAll? then EvictAll(m) else EvictKey(m, k)
      else m
    case Clearing => ClearGens(m)
    case DiscoverStart => m.(discoveries := m.discoveries[m.now + 1 := k])
    case _ => m
  }

  /**
   What a move of `tid` does to a lock.  A guard is acquired from the head of the queue and is
   released when the operation leaves the scope that owns it.
   */
  function NextLock(lock: RwLock, id: LockId, tid: Tid, before: Pc, after: Pc): RwLock {
    if Waits(id, before).Some? && lock.queue != [] then Grant(lock)
    else if Waits(id, after).Some? then Enqueue(lock, Waiter(tid, Waits(id, after).value))
    else if Holds(id, before).Some? && Holds(id, after) == None then Release(lock, tid)
    else lock
  }

  /** The step is not blocked, and the environment supplies what it needs. */
  ghost predicate CanAct(cfg: Config, s: State, tid: Tid, env: Env) {
    && tid in s.ops
    && env.time >= s.mem.clock
    && var op := s.ops[tid];
    match op.pc
    case At(place, stage) =>
      if stage == Queued then CanGrant(Lock(s, LockOf(place)), tid)
      else if stage == Held && place == StoreCache then
        Survivors(s.mem.cache[KeyOf(op.task) := Entry(env.time, op.listing)], cfg.maxEntries, env.keep)
      else true
    case Done(_) => false
    case _ => true
  }

  function DoAct(cfg: Config, s: State, tid: Tid, env: Env): State
    requires CanAct(cfg, s, tid, env)
  {
    var op := s.ops[tid];
    var op' := NextOp(cfg, s.mem, op, env);
    State(Tick(NextMem(s.mem, op, env), env.time),
          NextLock(s.gensLock, Gens, tid, op.pc, op'.pc),
          NextLock(s.cacheLock, Cache, tid, op.pc, op'.pc),
          s.ops[tid := op'])
  }

  function DoSpawn(s: State, tid: Tid, task: Task): State {
    State(Tick(s.mem, s.mem.clock), s.gensLock, s.cacheLock, s.ops[tid := NewOp(s.mem, task)])
  }

  /** An operation can be dropped while it waits for a lock or for git. */
  predicate CanDrop(s: State, tid: Tid) {
    && tid in s.ops
    && var pc := s.ops[tid].pc;
    pc == Discovering || (pc.At? && pc.stage == Queued)
  }

  function DoDrop(s: State, tid: Tid): State
    requires CanDrop(s, tid)
  {
    var op := s.ops[tid];
    var m := if op.pc == At(InvCache, Queued) then Abandon(s.mem) else s.mem;
    State(Tick(m, m.clock), Forget(s.gensLock, tid), Forget(s.cacheLock, tid),
          s.ops[tid := op.(pc := Done(Dropped))])
  }

  ghost predicate Step(cfg: Config, s: State, l: Label, s': State) {
    match l
    case Spawn(tid, task) => tid !in s.ops && s' == DoSpawn(s, tid, task)
    case Act(tid, env) => CanAct(cfg, s, tid, env) && s' == DoAct(cfg, s, tid, env)
    case Drop(tid) => CanDrop(s, tid) && s' == DoDrop(s, tid)
  }

  ghost predicate StepAt(cfg: Config, ss: seq<State>, ls: seq<Label>, i: nat)
    requires |ss| == |ls| + 1 && i < |ls|
  {
    Step(cfg, ss[i], ls[i], ss[i + 1])
  }

  /** A run: from the initial state, label i leads from state i to state i + 1. */
  ghost predicate Run(cfg: Config, ss: seq<State>, ls: seq<Label>) {
    && |ss| == |ls| + 1
    && ss[0] == INIT
    && forall i {:trigger StepAt(cfg, ss, ls, i)} :: 0 <= i < |ls| ==> StepAt(cfg, ss, ls, i)
  }
}
