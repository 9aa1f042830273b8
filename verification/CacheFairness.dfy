/** The two locks serve their requests in the order in which they come. */
module CacheFairness {
  import opened Prelude
  import opened CacheMachine
  import opened CacheInvariant
  import opened CacheSteps

  /** In a queue `a` comes before every request of `b`. */
  predicate ComesFirst(queue: seq<Waiter>, a: Tid, b: Tid) {
    queue != [] && (queue[0].tid == a || (queue[0].tid != b && ComesFirst(queue[1..], a, b)))
  }

  /** `a` waits, and `b` neither holds the lock nor waits before it. */
  predicate Behind(lock: RwLock, a: Tid, b: Tid) {
    ComesFirst(lock.queue, a, b) && b !in lock.readers && lock.writer != Some(b)
  }

  ghost predicate WaitsFor(s: State, id: LockId, t: Tid) {
    t in s.ops && Waits(id, s.ops[t].pc).Some?
  }

  ghost predicate HoldsOn(s: State, id: LockId, t: Tid) {
    t in s.ops && Holds(id, s.ops[t].pc).Some?
  }

  lemma {:induction false} NewcomersComeLast(queue: seq<Waiter>, w: Waiter, a: Tid, b: Tid)
    requires ComesFirst(queue, a, b)
    ensures ComesFirst(queue + [w], a, b)
  {
    assert (queue + [w])[1..] == queue[1..] + [w];
    if queue[0].tid != a { NewcomersComeLast(queue[1..], w, a, b); }
  }

  lemma {:induction false} OthersMayLeave(queue: seq<Waiter>, t: Tid, a: Tid, b: Tid)
    requires ComesFirst(queue, a, b) && t != a
    ensures ComesFirst(Unqueue(queue, t), a, b)
  {
    if queue[0].tid != a {
      OthersMayLeave(queue[1..], t, a, b);
      assert ([queue[0]] + Unqueue(queue[1..], t))[1..] == Unqueue(queue[1..], t);
    }
  }

  lemma {:induction false} WaiterComesFirst(queue: seq<Waiter>, w: Waiter, b: Tid)
    requires w in queue && forall i :: 0 <= i < |queue| ==> queue[i].tid != b
    ensures ComesFirst(queue, w.tid, b)
  {
    if queue[0] != w { WaiterComesFirst(queue[1..], w, b); }
  }

  lemma HeadIsServed(lock: RwLock, a: Tid, b: Tid)
    requires Behind(lock, a, b) && lock.queue[0].tid != a
    ensures Behind(Grant(lock), a, b)
  {
  }

  /** A queue holds exactly the requests that wait. */
  lemma QueuedWaits(s: State, id: LockId, i: nat)
    requires LocksOk(s) && i < |Lock(s, id).queue|
    ensures WaitsFor(s, id, Lock(s, id).queue[i].tid)
  {
    assert Waiting(Lock(s, id), id, s.ops, Lock(s, id).queue[i]);
  }

  lemma ActKeepsBehind(cfg: Config, s: State, tid: Tid, env: Env, id: LockId, a: Tid, b: Tid)
    requires LocksOk(s) && CanAct(cfg, s, tid, env) && Behind(Lock(s, id), a, b)
    requires WaitsFor(s, id, a) && WaitsFor(DoAct(cfg, s, tid, env), id, a)
    ensures Behind(Lock(DoAct(cfg, s, tid, env), id), a, b)
  {
    var (lock, before) := (Lock(s, id), s.ops[tid].pc);
    var after := NextOp(cfg, s.mem, s.ops[tid], env).pc;
    if Waits(id, before).Some? {
      assert tid != a;
      HeadIsServed(lock, a, b);
    } else if Waits(id, after).Some? {
      NewcomersComeLast(lock.queue, Waiter(tid, Waits(id, after).value), a, b);
    }
  }

  lemma StepKeepsBehind(cfg: Config, s: State, l: Label, s': State, id: LockId, a: Tid, b: Tid)
    requires LocksOk(s) && Step(cfg, s, l, s') && Behind(Lock(s, id), a, b)
    requires WaitsFor(s, id, a) && WaitsFor(s', id, a)
    ensures Behind(Lock(s', id), a, b)
  {
    match l
    case Spawn(_, _) =>
    case Act(tid, env) => ActKeepsBehind(cfg, s, tid, env, id, a, b);
    case Drop(tid) => OthersMayLeave(Lock(s, id).queue, tid, a, b);
  }

  lemma FirstRequest(s: State, id: LockId, a: Tid, b: Tid)
    requires LocksOk(s) && WaitsFor(s, id, a) && !WaitsFor(s, id, b) && !HoldsOn(s, id, b)
    ensures Behind(Lock(s, id), a, b)
  {
    var lock := Lock(s, id);
    assert Waiting(lock, id, s.ops, Waiter(a, Waits(id, s.ops[a].pc).value));
    assert Owned(lock, id, s.ops, b);
    forall i | 0 <= i < |lock.queue| ensures lock.queue[i].tid != b { QueuedWaits(s, id, i); }
    WaiterComesFirst(lock.queue, Waiter(a, Waits(id, s.ops[a].pc).value), b);
  }

  lemma {:induction false} StaysBehind(
    cfg: Config, ss: seq<State>, ls: seq<Label>, id: LockId, a: Tid, b: Tid, i: nat, j: nat)
    requires Run(cfg, ss, ls) && i <= j <= |ls|
    requires forall n :: i <= n <= j ==> WaitsFor(ss[n], id, a)
    requires !WaitsFor(ss[i], id, b) && !HoldsOn(ss[i], id, b)
    ensures Behind(Lock(ss[j], id), a, b)
    decreases j
  {
    if i == j {
      RunKeeps(cfg, ss, ls, i);
      FirstRequest(ss[i], id, a, b);
    } else {
      StaysBehind(cfg, ss, ls, id, a, b, i, j - 1);
      RunKeeps(cfg, ss, ls, j - 1);
      assert StepAt(cfg, ss, ls, j - 1);
      StepKeepsBehind(cfg, ss[j - 1], ls[j - 1], ss[j], id, a, b);
    }
  }

  /** In every run, while one operation waits for a lock, no operation that asks for it later gets it. */
  lemma NoOvertaking(cfg: Config, ss: seq<State>, ls: seq<Label>, id: LockId, a: Tid, b: Tid, i: nat, j: nat)
    requires Run(cfg, ss, ls) && i <= j <= |ls|
    requires forall n :: i <= n <= j ==> WaitsFor(ss[n], id, a)
    requires !WaitsFor(ss[i], id, b) && !HoldsOn(ss[i], id, b)
    ensures !HoldsOn(ss[j], id, b)
  {
    StaysBehind(cfg, ss, ls, id, a, b, i, j);
    RunKeeps(cfg, ss, ls, j);
    assert Owned(Lock(ss[j], id), id, ss[j].ops, b);
  }
}
