/** How old an answer of the discovery cache can be. */
module CacheAge {
  import opened Prelude
  import opened CacheMachine
  import opened CacheInvariant
  import opened CacheSteps
  import opened CacheTheorems

  // ---------------------------------------------------------------- where entries come from

  /** Step i stored the entry e for k. */
  ghost predicate StoredAt(ss: seq<State>, ls: seq<Label>, i: nat, k: Key, e: Entry)
    requires |ss| == |ls| + 1
  {
    && i < |ls| && StoresKey(ss[i], ls[i], k)
    && e == Entry(ls[i].env.time, ss[i].ops[ls[i].tid].listing)
  }

  ghost predicate Stored(ss: seq<State>, ls: seq<Label>, n: nat, k: Key, e: Entry)
    requires |ss| == |ls| + 1
  {
    exists i :: 0 <= i < n && StoredAt(ss, ls, i, k, e)
  }

  /** What is in the cache after a step was there before or was put there by the step. */
  predicate Inherits(m: Memory, op: Op, env: Env, k: Key, e: Entry) {
    || (k in m.cache && m.cache[k] == e)
    || (op.pc == At(StoreCache, Held) && KeyOf(op.task) == k && e == Entry(env.time, op.listing))
  }

  lemma ChangesOfCache(m: Memory, k: Key)
    ensures BumpGlobal(m).cache == BumpKey(m, k).cache == ClearGens(m).cache == m.cache
    ensures EvictAll(m).cache == map[] && EvictKey(m, k).cache == m.cache - {k}
  {
  }

  lemma OthersKeepCache(m: Memory, op: Op, env: Env)
    requires ChangeOf(op) == None && op.pc != At(StoreCache, Held)
    ensures NextMem(m, op, env).cache == m.cache
  {
  }

  lemma ActCache(m: Memory, op: Op, env: Env, k: Key)
    requires k in NextMem(m, op, env).cache
    ensures Inherits(m, op, env, k, NextMem(m, op, env).cache[k])
  {
    if ChangeOf(op).Some? {
      ChangesOfCache(m, KeyOf(op.task));
    } else if op.pc != At(StoreCache, Held) {
      OthersKeepCache(m, op, env);
    }
  }

  lemma StepCache(cfg: Config, s: State, l: Label, s': State, k: Key)
    requires Step(cfg, s, l, s') && k in s'.mem.cache
    ensures || (k in s.mem.cache && s.mem.cache[k] == s'.mem.cache[k])
            || (StoresKey(s, l, k) && s'.mem.cache[k] == Entry(l.env.time, s.ops[l.tid].listing))
  {
    if l.Act? { ActCache(s.mem, s.ops[l.tid], l.env, k); }
  }

  /** Every cached entry was stored by an earlier step. */
  lemma {:induction false} EntryWasStored(cfg: Config, ss: seq<State>, ls: seq<Label>, n: nat, k: Key)
    requires Run(cfg, ss, ls) && n <= |ls| && k in ss[n].mem.cache
    ensures Stored(ss, ls, n, k, ss[n].mem.cache[k])
  {
    if n > 0 {
      var i := n - 1;
      assert StepAt(cfg, ss, ls, i);
      StepCache(cfg, ss[i], ls[i], ss[i + 1], k);
      if k in ss[i].mem.cache && ss[i].mem.cache[k] == ss[n].mem.cache[k] {
        EntryWasStored(cfg, ss, ls, i, k);
      } else {
        assert StoredAt(ss, ls, i, k, ss[n].mem.cache[k]);
      }
    }
  }

  // ---------------------------------------------------------------- where answers come from

  /** At step j the operation found the entry e younger than the limit. */
  ghost predicate CheckedAt(cfg: Config, ss: seq<State>, ls: seq<Label>, j: nat, tid: Tid, e: Entry)
    requires |ss| == |ls| + 1
  {
    && j < |ls| && ActsAt(ss[j], ls[j], TtlCheck) && ls[j].tid == tid
    && ss[j].ops[tid].hit == e && ls[j].env.time - e.loadedAt < cfg.ttl
  }

  ghost predicate Checked(cfg: Config, ss: seq<State>, ls: seq<Label>, b: nat, n: nat, tid: Tid, e: Entry)
    requires |ss| == |ls| + 1
  {
    exists j :: b < j < n && CheckedAt(cfg, ss, ls, j, tid, e)
  }

  predicate Rechecks(pc: Pc) {
    pc == GenLoad(Recheck) || AtGenRead(pc, Recheck)
  }

  predicate HasOwn(pc: Pc) {
    pc == Discovering || HasListing(pc)
  }

  predicate Answers(pc: Pc, listing: Listing) {
    pc == Done(Listed(listing))
  }

  /** The entry that an operation may answer from was in the cache, and was young when it was checked. */
  lemma NextHit(cfg: Config, m: Memory, op: Op, env: Env)
    ensures var op', k := NextOp(cfg, m, op, env), KeyOf(op.task);
            && (HasHit(op'.pc) ==>
                  || (HasHit(op.pc) && op'.hit == op.hit)
                  || (op.pc == At(CacheRead, Held) && k in m.cache && op'.hit == m.cache[k]))
            && (Rechecks(op'.pc) ==>
                  op'.hit == op.hit && (Rechecks(op.pc) || (op.pc == TtlCheck && env.time - op.hit.loadedAt < cfg.ttl)))
  {
  }

  /** The listing that an operation may answer from is what it has discovered itself. */
  lemma NextOwn(cfg: Config, m: Memory, op: Op, env: Env)
    requires HasListing(op.pc) ==> op.listing.startedAt == op.startedAt
    ensures var op' := NextOp(cfg, m, op, env);
            && (HasOwn(op'.pc) ==>
                  || (op.pc == DiscoverStart && op'.startedAt == m.now + 1)
                  || (HasOwn(op.pc) && op'.startedAt == op.startedAt))
            && (HasListing(op'.pc) ==> op'.listing.startedAt == op'.startedAt)
  {
  }

  lemma NextAnswer(cfg: Config, m: Memory, op: Op, env: Env, listing: Listing)
    requires Answers(NextOp(cfg, m, op, env).pc, listing) && !op.pc.Done?
    ensures || (Rechecks(op.pc) && listing == op.hit.listing)
            || (HasListing(op.pc) && listing == op.listing)
  {
  }

  /** What a call knows of the age of what it may answer. */
  ghost predicate AgeOk(cfg: Config, ss: seq<State>, ls: seq<Label>, b: nat, n: nat, tid: Tid, k: Key, op: Op)
    requires |ss| == |ls| + 1
  {
    && (HasHit(op.pc) ==> Stored(ss, ls, n, k, op.hit))
    && (Rechecks(op.pc) ==> Checked(cfg, ss, ls, b, n, tid, op.hit))
    && (HasOwn(op.pc) ==> b + 1 < op.startedAt)
    && (HasListing(op.pc) ==> op.listing.startedAt == op.startedAt)
    && (forall listing :: Answers(op.pc, listing) ==> RecentAnswer(cfg, ss, ls, b, n, tid, listing))
  }

  ghost predicate RecentAnswer(cfg: Config, ss: seq<State>, ls: seq<Label>, b: nat, n: nat, tid: Tid, listing: Listing)
    requires |ss| == |ls| + 1
  {
    b + 1 < listing.startedAt || exists e: Entry :: e.listing == listing && Checked(cfg, ss, ls, b, n, tid, e)
  }

  lemma AgeMore(cfg: Config, ss: seq<State>, ls: seq<Label>, b: nat, n: nat, tid: Tid, k: Key, op: Op)
    requires |ss| == |ls| + 1 && AgeOk(cfg, ss, ls, b, n, tid, k, op)
    ensures AgeOk(cfg, ss, ls, b, n + 1, tid, k, op)
  {
    forall listing | Answers(op.pc, listing) ensures RecentAnswer(cfg, ss, ls, b, n + 1, tid, listing) {
      AnswerMore(cfg, ss, ls, b, n, tid, listing);
    }
    if Rechecks(op.pc) { CheckedMore(cfg, ss, ls, b, n, tid, op.hit); }
    if HasHit(op.pc) { StoredMore(ss, ls, n, k, op.hit); }
  }

  lemma StoredMore(ss: seq<State>, ls: seq<Label>, n: nat, k: Key, e: Entry)
    requires |ss| == |ls| + 1 && Stored(ss, ls, n, k, e)
    ensures Stored(ss, ls, n + 1, k, e)
  {
  }

  lemma CheckedMore(cfg: Config, ss: seq<State>, ls: seq<Label>, b: nat, n: nat, tid: Tid, e: Entry)
    requires |ss| == |ls| + 1 && Checked(cfg, ss, ls, b, n, tid, e)
    ensures Checked(cfg, ss, ls, b, n + 1, tid, e)
  {
  }

  lemma AnswerMore(cfg: Config, ss: seq<State>, ls: seq<Label>, b: nat, n: nat, tid: Tid, listing: Listing)
    requires |ss| == |ls| + 1 && RecentAnswer(cfg, ss, ls, b, n, tid, listing)
    ensures RecentAnswer(cfg, ss, ls, b, n + 1, tid, listing)
  {
    if b + 1 >= listing.startedAt {
      var e: Entry :| e.listing == listing && Checked(cfg, ss, ls, b, n, tid, e);
      CheckedMore(cfg, ss, ls, b, n, tid, e);
    }
  }

  /** A step of the call keeps what it knows. */
  lemma OwnStepAge(cfg: Config, ss: seq<State>, ls: seq<Label>, b: nat, i: nat, k: Key)
    requires Run(cfg, ss, ls) && b < i < |ls| && ls[i].Act? && ls[i].tid in ss[i].ops
    requires var op := ss[i].ops[ls[i].tid];
             KeyOf(op.task) == k && !op.pc.Done? && AgeOk(cfg, ss, ls, b, i, ls[i].tid, k, op)
    requires ss[i].mem.now == i
    ensures AgeOk(cfg, ss, ls, b, i + 1, ls[i].tid, k, NextOp(cfg, ss[i].mem, ss[i].ops[ls[i].tid], ls[i].env))
  {
    var (m, tid, env) := (ss[i].mem, ls[i].tid, ls[i].env);
    var op := ss[i].ops[tid];
    var op' := NextOp(cfg, m, op, env);
    NextHit(cfg, m, op, env);
    NextOwn(cfg, m, op, env);
    if HasHit(op'.pc) {
      if HasHit(op.pc) && op'.hit == op.hit { StoredMore(ss, ls, i, k, op.hit); }
      else {
        EntryWasStored(cfg, ss, ls, i, k);
        StoredMore(ss, ls, i, k, op'.hit);
      }
    }
    if Rechecks(op'.pc) {
      if Rechecks(op.pc) { CheckedMore(cfg, ss, ls, b, i, tid, op.hit); }
      else { assert CheckedAt(cfg, ss, ls, i, tid, op.hit); }
    }
    forall listing | Answers(op'.pc, listing) ensures RecentAnswer(cfg, ss, ls, b, i + 1, tid, listing) {
      NextAnswer(cfg, m, op, env, listing);
      if Rechecks(op.pc) && listing == op.hit.listing { CheckedMore(cfg, ss, ls, b, i, tid, op.hit); }
    }
  }

  lemma TimeIs(cfg: Config, ss: seq<State>, ls: seq<Label>, n: nat)
    requires Run(cfg, ss, ls) && n <= |ls|
    ensures ss[n].mem.now == n
  {
    RunKeeps(cfg, ss, ls, n);
  }

  /** What a step does to one operation. */
  lemma StepOp(cfg: Config, s: State, l: Label, s': State, tid: Tid)
    requires Step(cfg, s, l, s') && tid in s.ops
    ensures tid in s'.ops
    ensures if IsStepOf(l, tid) then !s.ops[tid].pc.Done? && s'.ops[tid] == NextOp(cfg, s.mem, s.ops[tid], l.env)
            else s'.ops[tid] == s.ops[tid] || s'.ops[tid].pc == Done(Dropped)
  {
  }

  lemma StepAge(cfg: Config, ss: seq<State>, ls: seq<Label>, b: nat, i: nat, tid: Tid, k: Key)
    requires Run(cfg, ss, ls) && b < i < |ls| && tid in ss[i].ops && KeyOf(ss[i].ops[tid].task) == k
    requires AgeOk(cfg, ss, ls, b, i, tid, k, ss[i].ops[tid])
    ensures tid in ss[i + 1].ops && AgeOk(cfg, ss, ls, b, i + 1, tid, k, ss[i + 1].ops[tid])
  {
    assert StepAt(cfg, ss, ls, i);
    StepOp(cfg, ss[i], ls[i], ss[i + 1], tid);
    if IsStepOf(ls[i], tid) {
      TimeIs(cfg, ss, ls, i);
      OwnStepAge(cfg, ss, ls, b, i, k);
    } else {
      AgeMore(cfg, ss, ls, b, i, tid, k, ss[i].ops[tid]);
    }
  }

  lemma NewCallAge(cfg: Config, ss: seq<State>, ls: seq<Label>, b: nat, k: Key)
    requires Run(cfg, ss, ls) && b < |ls| && ls[b].Spawn? && ls[b].task == CachedWorktrees(k)
    ensures ls[b].tid in ss[b + 1].ops && AgeOk(cfg, ss, ls, b, b + 1, ls[b].tid, k, ss[b + 1].ops[ls[b].tid])
  {
    assert StepAt(cfg, ss, ls, b);
  }

  lemma {:induction false} CallAge(cfg: Config, ss: seq<State>, ls: seq<Label>, b: nat, n: nat, k: Key)
    requires Run(cfg, ss, ls) && b < n <= |ls| && ls[b].Spawn? && ls[b].task == CachedWorktrees(k)
    ensures ls[b].tid in ss[n].ops && AgeOk(cfg, ss, ls, b, n, ls[b].tid, k, ss[n].ops[ls[b].tid])
    decreases n
  {
    if n == b + 1 {
      NewCallAge(cfg, ss, ls, b, k);
    } else {
      CallAge(cfg, ss, ls, b, n - 1, k);
      CallRecord(cfg, ss, ls, b, n - 1);
      StepAge(cfg, ss, ls, b, n - 1, ls[b].tid, k);
    }
  }

  /**
   Every answer of `cached_worktrees` was discovered by a discovery that began during the call, or
   was stored by a step that lies less than the time to live before a step of the call.
   */
  lemma AnswersAreRecent(cfg: Config, ss: seq<State>, ls: seq<Label>, b: nat, n: nat, k: Key, listing: Listing)
    returns (i: nat, j: nat)
    requires Run(cfg, ss, ls) && b < n <= |ls| && ls[b].Spawn? && ls[b].task == CachedWorktrees(k)
    requires ls[b].tid in ss[n].ops && ss[n].ops[ls[b].tid].pc == Done(Listed(listing))
    ensures || (&& b + 1 < listing.startedAt <= n
                && StartsDiscovery(ss[listing.startedAt - 1], ls[listing.startedAt - 1], k))
            || (&& i < j && b < j < n
                && StoresKey(ss[i], ls[i], k) && ss[i].ops[ls[i].tid].listing == listing
                && ActsAt(ss[j], ls[j], TtlCheck) && ls[j].tid == ls[b].tid
                && ls[j].env.time - ls[i].env.time < cfg.ttl)
  {
    var tid := ls[b].tid;
    var instant := CachedWorktreesIsFresh(cfg, ss, ls, b, n, k, listing);
    CallAge(cfg, ss, ls, b, n, k);
    assert Answers(ss[n].ops[tid].pc, listing);
    i, j := 0, 0;
    if b + 1 >= listing.startedAt {
      var e: Entry :| e.listing == listing && Checked(cfg, ss, ls, b, n, tid, e);
      j :| b < j < n && CheckedAt(cfg, ss, ls, j, tid, e);
      CallAge(cfg, ss, ls, b, j, k);
      i :| 0 <= i < j && StoredAt(ss, ls, i, k, e);
    }
  }
}
