/** What an answer of the discovery cache holds: what git listed for its key. */
module CacheContents {
  import opened Prelude
  import opened CacheMachine
  import opened CacheInvariant
  import opened CacheSteps
  import opened CacheTheorems
  import opened CacheAge

  /** A discovery of `k` by `tid` began at step b, and until n the operation has taken no other step. */
  ghost predicate Underway(ss: seq<State>, ls: seq<Label>, b: int, n: nat, tid: Tid, k: Key)
    requires |ss| == |ls| + 1
  {
    && 0 <= b < n <= |ls| && StartsDiscovery(ss[b], ls[b], k) && ls[b].tid == tid
    && forall i :: b < i < n ==> !IsStepOf(ls[i], tid)
  }

  /** At step d git answered `found` to the operation `tid`, which was discovering for `k`. */
  ghost predicate GitAnswers(s: State, l: Label, tid: Tid, k: Key, found: Option<seq<Worktree>>) {
    ActsAt(s, l, Discovering) && l.tid == tid && KeyOf(s.ops[tid].task) == k && l.env.discovered == found
  }

  /**
   The listing holds what git answered at step d to the discovery of `k` that began at the step
   before `startedAt`; both are steps of one operation, which took none in between.
   */
  ghost predicate DiscoveredAt(ss: seq<State>, ls: seq<Label>, d: nat, k: Key, listing: Listing)
    requires |ss| == |ls| + 1
  {
    && d < |ls|
    && GitAnswers(ss[d], ls[d], ls[d].tid, k, Some(listing.worktrees))
    && Underway(ss, ls, listing.startedAt - 1, d, ls[d].tid, k)
  }

  ghost predicate Discovered(ss: seq<State>, ls: seq<Label>, n: nat, k: Key, listing: Listing)
    requires |ss| == |ls| + 1
  {
    exists d :: 0 <= d < n && DiscoveredAt(ss, ls, d, k, listing)
  }

  /** Git failed for the operation at an earlier step. */
  ghost predicate GitFailed(ss: seq<State>, ls: seq<Label>, n: nat, tid: Tid, k: Key)
    requires |ss| == |ls| + 1 && n <= |ls|
  {
    exists d :: 0 <= d < n && GitAnswers(ss[d], ls[d], tid, k, None)
  }

  /** Everything that an operation holds, and may answer with or store, is what git listed. */
  ghost predicate ContentOk(ss: seq<State>, ls: seq<Label>, n: nat, tid: Tid, op: Op)
    requires |ss| == |ls| + 1 && n <= |ls|
  {
    var k := KeyOf(op.task);
    && (op.pc == Discovering ==> Underway(ss, ls, op.startedAt - 1, n, tid, k))
    && (HasListing(op.pc) ==> Discovered(ss, ls, n, k, op.listing))
    && (HasHit(op.pc) ==> Discovered(ss, ls, n, k, op.hit.listing))
    && (op.pc.Done? && op.pc.result.Listed? ==> Discovered(ss, ls, n, k, op.pc.result.listing))
    && (op.pc == Done(DiscoveryFailed) ==> GitFailed(ss, ls, n, tid, k))
  }

  ghost predicate EntryContentOk(ss: seq<State>, ls: seq<Label>, n: nat, k: Key)
    requires |ss| == |ls| + 1 && n <= |ls|
  {
    k in ss[n].mem.cache ==> Discovered(ss, ls, n, k, ss[n].mem.cache[k].listing)
  }

  lemma DiscoveredMore(ss: seq<State>, ls: seq<Label>, n: nat, k: Key, listing: Listing)
    requires |ss| == |ls| + 1 && Discovered(ss, ls, n, k, listing)
    ensures Discovered(ss, ls, n + 1, k, listing)
  {
  }

  lemma FailedMore(ss: seq<State>, ls: seq<Label>, n: nat, tid: Tid, k: Key)
    requires |ss| == |ls| + 1 && n < |ls| && GitFailed(ss, ls, n, tid, k)
    ensures GitFailed(ss, ls, n + 1, tid, k)
  {
  }

  /** Where a listing that an operation holds comes from. */
  lemma NextListing(cfg: Config, m: Memory, op: Op, env: Env)
    ensures var op' := NextOp(cfg, m, op, env);
            && op'.task == op.task
            && (op'.pc == Discovering ==> op.pc == DiscoverStart && op'.startedAt == m.now + 1)
            && (HasListing(op'.pc) ==>
                  || (HasListing(op.pc) && op'.listing == op.listing)
                  || (&& op.pc == Discovering && env.discovered.Some?
                      && op'.listing.worktrees == env.discovered.value && op'.listing.startedAt == op.startedAt))
            && (op'.pc == Done(DiscoveryFailed) && !op.pc.Done? ==> op.pc == Discovering && env.discovered == None)
  {
  }

  lemma OwnListing(cfg: Config, ss: seq<State>, ls: seq<Label>, i: nat, op': Op)
    requires |ss| == |ls| + 1 && i < |ls| && ls[i].Act? && ls[i].tid in ss[i].ops && ss[i].mem.now == i
    requires ContentOk(ss, ls, i, ls[i].tid, ss[i].ops[ls[i].tid])
    requires op' == NextOp(cfg, ss[i].mem, ss[i].ops[ls[i].tid], ls[i].env)
    ensures op'.pc == Discovering ==> Underway(ss, ls, op'.startedAt - 1, i + 1, ls[i].tid, KeyOf(op'.task))
    ensures HasListing(op'.pc) ==> Discovered(ss, ls, i + 1, KeyOf(op'.task), op'.listing)
  {
    var (op, k) := (ss[i].ops[ls[i].tid], KeyOf(op'.task));
    NextListing(cfg, ss[i].mem, op, ls[i].env);
    if HasListing(op'.pc) {
      if op.pc == Discovering { assert DiscoveredAt(ss, ls, i, k, op'.listing); }
      else { DiscoveredMore(ss, ls, i, k, op.listing); }
    }
  }

  lemma OwnHit(cfg: Config, ss: seq<State>, ls: seq<Label>, i: nat, op': Op)
    requires |ss| == |ls| + 1 && i < |ls| && ls[i].Act? && ls[i].tid in ss[i].ops
    requires ContentOk(ss, ls, i, ls[i].tid, ss[i].ops[ls[i].tid])
    requires EntryContentOk(ss, ls, i, KeyOf(ss[i].ops[ls[i].tid].task))
    requires op' == NextOp(cfg, ss[i].mem, ss[i].ops[ls[i].tid], ls[i].env)
    ensures HasHit(op'.pc) ==> Discovered(ss, ls, i + 1, KeyOf(op'.task), op'.hit.listing)
  {
    var op := ss[i].ops[ls[i].tid];
    NextListing(cfg, ss[i].mem, op, ls[i].env);
    NextHit(cfg, ss[i].mem, op, ls[i].env);
    if HasHit(op'.pc) { DiscoveredMore(ss, ls, i, KeyOf(op.task), op'.hit.listing); }
  }

  lemma OwnAnswer(cfg: Config, ss: seq<State>, ls: seq<Label>, i: nat, op': Op)
    requires |ss| == |ls| + 1 && i < |ls| && ls[i].Act? && ls[i].tid in ss[i].ops
    requires ContentOk(ss, ls, i, ls[i].tid, ss[i].ops[ls[i].tid]) && !ss[i].ops[ls[i].tid].pc.Done?
    requires op' == NextOp(cfg, ss[i].mem, ss[i].ops[ls[i].tid], ls[i].env)
    ensures op'.pc.Done? && op'.pc.result.Listed? ==>
              Discovered(ss, ls, i + 1, KeyOf(op'.task), op'.pc.result.listing)
    ensures op'.pc == Done(DiscoveryFailed) ==> GitFailed(ss, ls, i + 1, ls[i].tid, KeyOf(op'.task))
  {
    var op := ss[i].ops[ls[i].tid];
    NextListing(cfg, ss[i].mem, op, ls[i].env);
    if op'.pc.Done? && op'.pc.result.Listed? {
      NextAnswer(cfg, ss[i].mem, op, ls[i].env, op'.pc.result.listing);
      DiscoveredMore(ss, ls, i, KeyOf(op.task), op'.pc.result.listing);
    }
    if op'.pc == Done(DiscoveryFailed) {
      assert GitAnswers(ss[i], ls[i], ls[i].tid, KeyOf(op.task), None);
    }
  }

  /** What an operation holds is not touched by the steps of others. */
  lemma OthersContent(ss: seq<State>, ls: seq<Label>, n: nat, tid: Tid, op: Op)
    requires |ss| == |ls| + 1 && n < |ls| && ContentOk(ss, ls, n, tid, op) && !IsStepOf(ls[n], tid)
    ensures ContentOk(ss, ls, n + 1, tid, op)
  {
    var k := KeyOf(op.task);
    if HasListing(op.pc) { DiscoveredMore(ss, ls, n, k, op.listing); }
    if HasHit(op.pc) { DiscoveredMore(ss, ls, n, k, op.hit.listing); }
    if op.pc.Done? && op.pc.result.Listed? { DiscoveredMore(ss, ls, n, k, op.pc.result.listing); }
    if op.pc == Done(DiscoveryFailed) { FailedMore(ss, ls, n, tid, k); }
  }

  ghost predicate ContentsOk(ss: seq<State>, ls: seq<Label>, n: nat)
    requires |ss| == |ls| + 1 && n <= |ls|
  {
    && (forall t {:trigger ss[n].ops[t]} :: t in ss[n].ops ==> ContentOk(ss, ls, n, t, ss[n].ops[t]))
    && (forall k {:trigger EntryContentOk(ss, ls, n, k)} :: EntryContentOk(ss, ls, n, k))
  }

  lemma StepOpContent(cfg: Config, ss: seq<State>, ls: seq<Label>, i: nat, t: Tid)
    requires Run(cfg, ss, ls) && i < |ls| && ContentsOk(ss, ls, i) && t in ss[i + 1].ops
    ensures ContentOk(ss, ls, i + 1, t, ss[i + 1].ops[t])
  {
    assert StepAt(cfg, ss, ls, i);
    if t in ss[i].ops {
      StepOp(cfg, ss[i], ls[i], ss[i + 1], t);
      var op := ss[i].ops[t];
      if IsStepOf(ls[i], t) {
        TimeIs(cfg, ss, ls, i);
        assert EntryContentOk(ss, ls, i, KeyOf(op.task));
        OwnListing(cfg, ss, ls, i, ss[i + 1].ops[t]);
        OwnHit(cfg, ss, ls, i, ss[i + 1].ops[t]);
        OwnAnswer(cfg, ss, ls, i, ss[i + 1].ops[t]);
      } else {
        OthersContent(ss, ls, i, t, op);
      }
    }
  }

  lemma StepEntryContent(cfg: Config, ss: seq<State>, ls: seq<Label>, i: nat, k: Key)
    requires Run(cfg, ss, ls) && i < |ls| && ContentsOk(ss, ls, i)
    ensures EntryContentOk(ss, ls, i + 1, k)
  {
    assert StepAt(cfg, ss, ls, i);
    if k in ss[i + 1].mem.cache {
      var listing := ss[i + 1].mem.cache[k].listing;
      StepCache(cfg, ss[i], ls[i], ss[i + 1], k);
      if k in ss[i].mem.cache { assert EntryContentOk(ss, ls, i, k); }
      DiscoveredMore(ss, ls, i, k, listing);
    }
  }

  lemma {:induction false} RunContents(cfg: Config, ss: seq<State>, ls: seq<Label>, n: nat)
    requires Run(cfg, ss, ls) && n <= |ls|
    ensures ContentsOk(ss, ls, n)
  {
    if n > 0 {
      RunContents(cfg, ss, ls, n - 1);
      forall t | t in ss[n].ops ensures ContentOk(ss, ls, n, t, ss[n].ops[t]) {
        StepOpContent(cfg, ss, ls, n - 1, t);
      }
      forall k ensures EntryContentOk(ss, ls, n, k) { StepEntryContent(cfg, ss, ls, n - 1, k); }
    }
  }

  /**
   Whatever `cached_worktrees` or a refresh answers is, to the last worktree, what git listed at one
   step to one discovery of the same key, the one that `startedAt` speaks of.
   */
  lemma AnswerIsWhatGitListed(cfg: Config, ss: seq<State>, ls: seq<Label>, n: nat, tid: Tid, listing: Listing)
    returns (d: nat)
    requires Run(cfg, ss, ls) && n <= |ls| && tid in ss[n].ops && ss[n].ops[tid].pc == Done(Listed(listing))
    ensures d < n && DiscoveredAt(ss, ls, d, KeyOf(ss[n].ops[tid].task), listing)
  {
    RunContents(cfg, ss, ls, n);
    var k := KeyOf(ss[n].ops[tid].task);
    assert Discovered(ss, ls, n, k, listing);
    d :| 0 <= d < n && DiscoveredAt(ss, ls, d, k, listing);
  }

  /** So is every entry of the cache. */
  lemma EntryIsWhatGitListed(cfg: Config, ss: seq<State>, ls: seq<Label>, n: nat, k: Key) returns (d: nat)
    requires Run(cfg, ss, ls) && n <= |ls| && k in ss[n].mem.cache
    ensures d < n && DiscoveredAt(ss, ls, d, k, ss[n].mem.cache[k].listing)
  {
    RunContents(cfg, ss, ls, n);
    assert EntryContentOk(ss, ls, n, k);
    d :| 0 <= d < n && DiscoveredAt(ss, ls, d, k, ss[n].mem.cache[k].listing);
  }

  /** An operation ends in a failure of discovery only if git failed for that operation and key. */
  lemma FailureIsGits(cfg: Config, ss: seq<State>, ls: seq<Label>, n: nat, tid: Tid) returns (d: nat)
    requires Run(cfg, ss, ls) && n <= |ls| && tid in ss[n].ops && ss[n].ops[tid].pc == Done(DiscoveryFailed)
    ensures d < n && GitAnswers(ss[d], ls[d], tid, KeyOf(ss[n].ops[tid].task), None)
  {
    RunContents(cfg, ss, ls, n);
    d :| 0 <= d < n && GitAnswers(ss[d], ls[d], tid, KeyOf(ss[n].ops[tid].task), None);
  }

  /**
   The two together: when `cached_worktrees` for `k` answers, the answer is what git listed at step d
   to a discovery of `k`, and that discovery began after every invalidation of `k`, or of everything,
   that had completed by some instant inside the call.
   */
  lemma CachedWorktreesIsCorrect(
    cfg: Config, ss: seq<State>, ls: seq<Label>, b: nat, n: nat, k: Key, listing: Listing)
    returns (d: nat, instant: nat)
    requires Run(cfg, ss, ls) && b < n <= |ls| && ls[b].Spawn? && ls[b].task == CachedWorktrees(k)
    requires ls[b].tid in ss[n].ops && ss[n].ops[ls[b].tid].pc == Done(Listed(listing))
    ensures d < n && b < instant < n
    ensures GitAnswers(ss[d], ls[d], ls[d].tid, k, Some(listing.worktrees))
    ensures Underway(ss, ls, listing.startedAt - 1, d, ls[d].tid, k)
    ensures forall c :: 0 <= c < instant && Completes(ss[c], ls[c], k) ==> c < listing.startedAt - 1
  {
    CallRecord(cfg, ss, ls, b, n);
    instant := CachedWorktreesIsFresh(cfg, ss, ls, b, n, k, listing);
    d := AnswerIsWhatGitListed(cfg, ss, ls, n, ls[b].tid, listing);
  }

  // ---------------------------------------------------------------- hits

  /** The round of an operation began at step r, and none of its later rounds has begun by n. */
  ghost predicate RoundBegan(ss: seq<State>, ls: seq<Label>, r: nat, n: nat, tid: Tid)
    requires |ss| == |ls| + 1 && n <= |ls|
  {
    && r < n && ActsAt(ss[r], ls[r], GenLoad(Outer)) && ls[r].tid == tid
    && forall i :: r < i < n ==> !(ActsAt(ss[i], ls[i], GenLoad(Outer)) && ls[i].tid == tid)
  }

  lemma NextRound(cfg: Config, m: Memory, op: Op, env: Env)
    ensures var op' := NextOp(cfg, m, op, env);
            && op'.task == op.task
            && op'.roundVersion == if op.pc == GenLoad(Outer) then Version(m, KeyOf(op.task)) else op.roundVersion
  {
  }

  /** If nothing took effect on its key since the round began, the call still has the version it began with. */
  lemma {:induction false} RoundIsUndisturbed(
    cfg: Config, ss: seq<State>, ls: seq<Label>, r: nat, n: nat, tid: Tid, k: Key)
    requires Run(cfg, ss, ls) && n <= |ls| && RoundBegan(ss, ls, r, n, tid) && KeyOf(ss[r].ops[tid].task) == k
    requires forall i :: r <= i < n ==> !TakesEffect(ss[i], ls[i], k)
    ensures tid in ss[n].ops && KeyOf(ss[n].ops[tid].task) == k
    ensures ss[n].ops[tid].roundVersion == Version(ss[n].mem, k)
    decreases n
  {
    var i := n - 1;
    assert StepAt(cfg, ss, ls, i);
    if r < i { RoundIsUndisturbed(cfg, ss, ls, r, i, tid, k); }
    StepOp(cfg, ss[i], ls[i], ss[n], tid);
    StepCalls(cfg, ss[i], ls[i], ss[n], tid);
    VersionAt(cfg, ss, ls, i, k);
    if IsStepOf(ls[i], tid) { NextRound(cfg, ss[i].mem, ss[i].ops[tid], ls[i].env); }
    else { DropKeepsRound(cfg, ss[i], ls[i], ss[n], tid); }
  }

  lemma DropKeepsRound(cfg: Config, s: State, l: Label, s': State, tid: Tid)
    requires Step(cfg, s, l, s') && tid in s.ops && !IsStepOf(l, tid)
    ensures tid in s'.ops && s'.ops[tid].roundVersion == s.ops[tid].roundVersion
  {
  }

  /**
   The cache is used: a call that found a young entry answers from it, without asking git, if no
   invalidation of its key took effect since its round began.
   */
  lemma YoungHitIsAnswered(cfg: Config, ss: seq<State>, ls: seq<Label>, r: nat, n: nat, tid: Tid, k: Key)
    requires Run(cfg, ss, ls) && n < |ls| && RoundBegan(ss, ls, r, n, tid) && KeyOf(ss[r].ops[tid].task) == k
    requires forall i :: r <= i < n ==> !TakesEffect(ss[i], ls[i], k)
    requires tid in ss[n].ops && IsStepOf(ls[n], tid)
    ensures ss[n].ops[tid].pc == TtlCheck && ls[n].env.time - ss[n].ops[tid].hit.loadedAt < cfg.ttl ==>
              tid in ss[n + 1].ops && ss[n + 1].ops[tid] == ss[n].ops[tid].(pc := GenLoad(Recheck))
    ensures ss[n].ops[tid].pc == At(GenRead(Recheck), Held) ==>
              tid in ss[n + 1].ops && ss[n + 1].ops[tid].pc == Done(Listed(ss[n].ops[tid].hit.listing))
  {
    RunKeeps(cfg, ss, ls, n);
    OpAt(ss[n], tid);
    RoundIsUndisturbed(cfg, ss, ls, r, n, tid, k);
    assert StepAt(cfg, ss, ls, n);
    StepOp(cfg, ss[n], ls[n], ss[n + 1], tid);
    if ss[n].ops[tid].pc == At(GenRead(Recheck), Held) { RecheckPasses(ss[n].mem, ss[n].ops[tid]); }
  }

  lemma RecheckPasses(m: Memory, op: Op)
    requires OpOk(m, op) && op.pc == At(GenRead(Recheck), Held) && op.roundVersion == Version(m, KeyOf(op.task))
    ensures AfterGenRead(m, op, Recheck).pc == Done(Listed(op.hit.listing))
  {
  }
}
