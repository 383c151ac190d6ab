/** What becomes of threads when a second thread joins the same target, or a mutex in use is initialised again. The source
    lets both through (asst1/my_pthread.c:371-388, 400-404, 417-430). */
module SchedLost {
  import opened Sched
  import opened SchedInv
  import opened SchedRuns

  /** Thread p is blocked, and nothing in the scheduler refers to it any more. */
  ghost predicate Lost(s: State, p: Ptr) {
    && p in s.threads && (s.threads[p].status == WaitThread || s.threads[p].status == WaitMutex)
    && p != s.running
    && (forall l, i :: 0 <= l < |s.ready| && 0 <= i < |s.ready[l]| ==> s.ready[l][i] != p)
    && (forall m, i :: m in s.mutexes && 0 <= i < |s.mutexes[m].queue| ==> s.mutexes[m].queue[i] != p)
    && (forall id :: id in s.waiting ==> s.waiting[id] != p)
  }

  // ---------------------------------------------------------------- a lost thread stays lost

  lemma LostEnqueue(s: State, p: Ptr, l: int, q: Ptr, s': State)
    requires Lost(s, p) && 0 <= l < |s.ready| && q != p && s'.ready == Enqueue(s.ready, l, q)
    requires p in s'.threads && s'.threads[p] == s.threads[p]
    requires s'.running == s.running && s'.mutexes == s.mutexes && s'.waiting == s.waiting
    ensures Lost(s', p)
  {
  }

  lemma LostRequeue(s: State, p: Ptr)
    requires Lost(s, p) && Wellformed(s)
    ensures var r := Requeue(s); Lost(r, p) && |r.ready| == 5 && r.level == s.level && r.runAt == s.runAt
  {
    hide Lost, Enqueue;
    LostParts(s, p);
    var r, t := Requeue(s), Me(s);
    if t.status == Active {
      LostEnqueue(s, p, (t.priority + 1) % 5, s.running, r);
    } else if t.status == Yield {
      LostEnqueue(s, p, t.priority, s.running, r);
    } else if t.status == Exited && t.id in s.waiting {
      LostEnqueue(s, p, s.threads[s.waiting[t.id]].priority, s.waiting[t.id], r);
    }
    RequeueKeepsFive(s);
  }

  lemma RequeueKeepsFive(s: State)
    requires Wellformed(s)
    ensures var r := Requeue(s); |r.ready| == 5 && r.level == s.level && r.runAt == s.runAt
  {
  }

  lemma LostParts(s: State, p: Ptr)
    requires Lost(s, p)
    ensures p in s.threads && p != s.running && forall id :: id in s.waiting ==> s.waiting[id] != p
  {
  }

  lemma LostDispatch(s: State, p: Ptr)
    requires Lost(s, p) && |s.ready| == 5 && 0 <= s.level < 5 && SomeReady(s.ready)
    ensures Lost(Dispatch(s), p)
  {
    hide FirstLevel;
  }

  lemma LostHandler(s: State, p: Ptr)
    requires Lost(s, p) && CanHandle(s)
    ensures Lost(Handler(s), p)
  {
    hide Requeue, Dispatch;
    if !Continues(s) {
      LostRequeue(s, p);
      LostDispatch(NextCounters(Requeue(s)), p);
    }
  }

  lemma EnqueueFive(ready: seq<seq<Ptr>>, l: int, p: Ptr)
    requires 0 <= l < |ready|
    ensures |Enqueue(ready, l, p)| == |ready|
  {
  }

  lemma {:induction false} LostDrain(s: State, p: Ptr, q: seq<Ptr>)
    requires Lost(s, p) && |s.ready| == 5 && p !in q
    requires forall i :: 0 <= i < |q| ==> q[i] in s.threads && 0 <= s.threads[q[i]].priority < 5
    ensures Lost(Drain(s, q), p)
    decreases |q|
  {
    hide Lost, Enqueue;
    if q != [] {
      var s0 := Set(s, q[0], s.threads[q[0]].(status := Active));
      var s1 := s0.(ready := Enqueue(s.ready, s.threads[q[0]].priority, q[0]));
      LostParts(s, p);
      LostEnqueue(s, p, s.threads[q[0]].priority, q[0], s1);
      EnqueueFive(s.ready, s.threads[q[0]].priority, q[0]);
      LostDrain(s1, p, q[1..]);
    }
  }

  /** A lost thread stays lost whatever any thread does, in order or not. */
  lemma LostStep(s: State, step: Step, p: Ptr)
    requires Wellformed(s) && Possible(s, step) && Lost(s, p)
    ensures Lost(Next(s, step), p)
  {
    hide Handler, Drain;
    match step
    case Tick => LostHandler(s, p);
    case YieldCall => LostHandler(Yielding(s), p);
    case Exit => LostHandler(Exiting(s), p);
    case Create(q) => LostEnqueue(s, p, 0, q, Created(s, q).(waiting := s.waiting));
    case Join(t) =>
      if JoinCode(s, t).OK? && s.threads[t].id !in s.done { LostHandler(Joining(s, s.threads[t].id), p); }
    case Lock(m) => LostLock(s, m, p);
    case Unlock(m) => LostUnlock(s, m, p);
    case Destroy(m) => LostDestroy(s, m, p);
    case _ =>
  }

  lemma LostLock(s: State, m: MutexPtr, p: Ptr)
    requires Wellformed(s) && Possible(s, Lock(m)) && Lost(s, p)
    ensures Lost(Next(s, Lock(m)), p)
  {
    hide Handler;
    if LockBlocks(s, m) {
      LostHandler(Blocking(s, m), p);
    }
  }

  lemma LostUnlock(s: State, m: MutexPtr, p: Ptr)
    requires Wellformed(s) && Possible(s, Unlock(m)) && Lost(s, p)
    ensures Lost(Next(s, Unlock(m)), p)
  {
    var q := s.mutexes[m].queue;
    if q != [] {
      assert q[0] != p && forall i :: 0 <= i < |q[1..]| ==> q[1..][i] == q[i + 1];
    }
  }

  lemma LostDestroy(s: State, m: MutexPtr, p: Ptr)
    requires Wellformed(s) && Possible(s, Destroy(m)) && Lost(s, p)
    ensures Lost(Next(s, Destroy(m)), p)
  {
    hide Drain;
    LostDrain(s, p, s.mutexes[m].queue);
  }

  /** A run in which every step is possible, in order or not. */
  ghost predicate LooseRun(states: seq<State>, steps: seq<Step>) {
    && |states| == |steps| + 1
    && (forall i :: 0 <= i < |steps| ==>
          Wellformed(states[i]) && Possible(states[i], steps[i]) && states[i + 1] == Next(states[i], steps[i]))
  }

  /** Over every run, a lost thread is never dispatched again. */
  lemma {:induction false} LostForever(states: seq<State>, steps: seq<Step>, p: Ptr, n: nat)
    requires LooseRun(states, steps) && Lost(states[0], p) && n <= |steps|
    ensures Lost(states[n], p) && states[n].running != p
  {
    hide Possible, Wellformed, Next;
    if n > 0 {
      LostForever(states, steps, p, n - 1);
      LostStep(states[n - 1], steps[n - 1], p);
    }
  }

  // ---------------------------------------------------------------- when a call loses a thread

  /** As long as callers keep the rules nobody is lost. */
  lemma NobodyLost(s: State, p: Ptr)
    requires Inv(s)
    ensures !Lost(s, p)
  {
    hide Queues, Ids;
  }

  lemma DisplacedIsLost(s: State, id: int)
    requires Inv(s) && id in s.waiting && id !in s.done
    ensures Lost(Joining(s, id), s.waiting[id])
  {
    hide Ids;
  }

  /** A join that has to wait loses a thread if and only if some thread is registered for the target already. */
  lemma JoinLosesIff(s: State, t: Ptr)
    requires Inv(s) && Wellformed(s) && Possible(s, Join(t)) && JoinCode(s, t) == OK && s.threads[t].id !in s.done
    ensures (exists p :: Lost(Next(s, Join(t)), p)) <==> s.threads[t].id in s.waiting
    ensures s.threads[t].id in s.waiting ==> Lost(Next(s, Join(t)), s.waiting[s.threads[t].id])
  {
    hide Inv, Lost, Handler, Joining, CanHandle;
    var id := s.threads[t].id;
    if id in s.waiting {
      DisplacedIsLost(s, id);
      LostHandler(Joining(s, id), s.waiting[id]);
      assert Lost(Next(s, Join(t)), s.waiting[id]);
    } else {
      StepKeeps(s, Join(t));
      forall p
        ensures !Lost(Next(s, Join(t)), p)
      {
        NobodyLost(Next(s, Join(t)), p);
      }
    }
  }

  /** Thread p will go on to reap an id that no thread has: the source then reads through a NULL entry of thread_table. */
  ghost predicate Stranded(s: State, p: Ptr) {
    p in s.threads && s.threads[p].pending.Reap? && s.threads[p].pending.id !in s.table
  }

  /** A join that finds its target done strands a thread if and only if one is registered for it, woken but not yet run. */
  lemma ReapStrandsIff(s: State, t: Ptr)
    requires Inv(s) && Wellformed(s) && Possible(s, Join(t)) && JoinCode(s, t) == OK && s.threads[t].id in s.done
    ensures (exists p :: Stranded(Next(s, Join(t)), p)) <==> s.threads[t].id in s.waiting
    ensures s.threads[t].id in s.waiting ==> Stranded(Next(s, Join(t)), s.waiting[s.threads[t].id])
  {
    hide Queues, Locks, Ids, Handler;
    var id, s' := s.threads[t].id, Next(s, Join(t));
    if id in s.waiting {
      assert s.threads[s.waiting[id]].pending == Reap(id);
      assert Stranded(s', s.waiting[id]);
    }
  }

  /** Initialising a mutex loses its waiters, all of them and nobody else, because the queue is replaced before the call
      reports EBUSY. */
  lemma InitLosesIff(s: State, m: MutexPtr, p: Ptr)
    requires Inv(s) && Wellformed(s) && Possible(s, MutexInit(m))
    ensures Lost(Next(s, MutexInit(m)), p) <==> m in s.mutexes && p in s.mutexes[m].queue
  {
    hide Inv, Lost, Initialized;
    if m in s.mutexes && p in s.mutexes[m].queue {
      WaiterLost(s, m, p);
    } else {
      OthersStay(s, m, p);
    }
  }

  lemma WaiterLost(s: State, m: MutexPtr, p: Ptr)
    requires Inv(s) && m in s.mutexes && p in s.mutexes[m].queue
    ensures Lost(Initialized(s, m), p)
  {
    hide Ids;
    assert s.threads[p].status == WaitMutex && s.threads[p].pending == Claim(m);
  }

  lemma OthersStay(s: State, m: MutexPtr, p: Ptr)
    requires Inv(s) && !(m in s.mutexes && p in s.mutexes[m].queue)
    ensures !Lost(Initialized(s, m), p)
  {
    hide Queues, Ids;
    if p in s.threads && s.threads[p].status == WaitMutex {
      var n := s.threads[p].pending.m;
      assert n != m && p in Initialized(s, m).mutexes[n].queue;
    }
  }
}
