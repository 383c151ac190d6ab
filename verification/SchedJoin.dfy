/** Joins: no cycles of waiting, every joiner is woken exactly once, ids are recycled exactly once
    (asst1/my_pthread.c:92-123, 240-247, 358-410). */
module SchedJoin {
  import opened Sched
  import opened SchedInv
  import opened SchedRuns

  /** p is blocked in a join on q. */
  predicate WaitsFor(s: State, p: Ptr, q: Ptr) {
    && p in s.threads && s.threads[p].status == WaitThread
    && s.threads[p].waitId in s.table && s.table[s.threads[p].waitId] == q
  }

  /** Each thread of c waits for the next, and the last for the first. */
  predicate Cycle(s: State, c: seq<Ptr>) {
    && c != []
    && forall i :: 0 <= i < |c| ==> WaitsFor(s, c[i], c[if i + 1 < |c| then i + 1 else 0])
  }

  ghost predicate Acyclic(s: State) {
    forall c :: !Cycle(s, c)
  }

  /** The EINVAL check of my_pthread_join tests whether somebody waits for the caller. */
  lemma NobodyWaitsForCaller(s: State, t: Ptr, x: Ptr)
    requires Inv(s) && Wellformed(s) && t in s.threads && JoinCode(s, t).OK?
    ensures !WaitsFor(s, x, s.running)
  {
    hide Locks, Queues;
    if x in s.threads && s.threads[x].status == WaitThread {
      assert s.waiting[s.threads[x].waitId] == x;
      assert s.threads[x].waitId != Me(s).id;
    }
  }

  /** A step that adds no waiting keeps the relation acyclic. */
  lemma NoNewWaiting(s: State, s': State)
    requires Acyclic(s) && forall p, q :: WaitsFor(s', p, q) ==> WaitsFor(s, p, q)
    ensures Acyclic(s')
  {
    forall c
      ensures !Cycle(s', c)
    {
      assert Cycle(s', c) ==> Cycle(s, c);
    }
  }

  /** A cycle cannot pass through a thread that nobody waits for. */
  lemma CycleAvoids(s: State, s': State, x: Ptr, y: Ptr, c: seq<Ptr>)
    requires x != y && Cycle(s', c)
    requires forall p :: !WaitsFor(s, p, x)
    requires forall p, q :: WaitsFor(s', p, q) ==> WaitsFor(s, p, q) || (p == x && q == y)
    ensures Cycle(s, c)
  {
    forall i | 0 <= i < |c|
      ensures c[i] != x
    {
      var before := if i > 0 then i - 1 else |c| - 1;
      assert WaitsFor(s', c[before], c[if before + 1 < |c| then before + 1 else 0]);
    }
  }

  /** One new edge x -> y, where nobody waits for x and x is not y, closes no cycle of any length. */
  lemma NewWaiterAtTheEnd(s: State, s': State, x: Ptr, y: Ptr)
    requires Acyclic(s) && x != y
    requires forall p :: !WaitsFor(s, p, x)
    requires forall p, q :: WaitsFor(s', p, q) ==> WaitsFor(s, p, q) || (p == x && q == y)
    ensures Acyclic(s')
  {
    forall c
      ensures !Cycle(s', c)
    {
      if Cycle(s', c) {
        CycleAvoids(s, s', x, y, c);
      }
    }
  }

  /** The thread that an exit wakes. */
  predicate Wakes(s: State, p: Ptr)
    requires s.running in s.threads
  {
    Me(s).status == Exited && Me(s).id in s.waiting && s.waiting[Me(s).id] == p
  }

  /** The handler changes priority and interval of the running thread and, on an exit, wakes the joiner. */
  lemma HandlerThread(s: State, p: Ptr)
    requires CanHandle(s) && p in s.threads
    ensures Handler(s).threads.Keys == s.threads.Keys && Handler(s).table == s.table
    ensures p != s.running ==>
              Handler(s).threads[p] == (if Wakes(s, p) then s.threads[p].(status := Active) else s.threads[p])
    ensures p == s.running && !Wakes(s, p) ==>
              Handler(s).threads[p].status == Me(s).status && Handler(s).threads[p].waitId == Me(s).waitId
  {
    hide Requeue, Dispatch, NextCounters;
    if !Continues(s) {
      RequeueThread(s, p);
      DispatchThreads(s);
    }
  }

  lemma RequeueThread(s: State, p: Ptr)
    requires Wellformed(s) && p in s.threads
    ensures Requeue(s).threads.Keys == s.threads.Keys && Requeue(s).table == s.table
    ensures p != s.running ==>
              Requeue(s).threads[p] == (if Wakes(s, p) then s.threads[p].(status := Active) else s.threads[p])
    ensures p == s.running && !Wakes(s, p) ==>
              Requeue(s).threads[p].status == Me(s).status && Requeue(s).threads[p].waitId == Me(s).waitId
  {
    hide Enqueue;
  }

  lemma DispatchThreads(s: State)
    requires CanHandle(s) && !Continues(s)
    ensures var s1 := Handler(s); s1.threads == Requeue(s).threads && s1.table == Requeue(s).table
  {
    hide Requeue, FirstLevel;
  }

  /** What one step does to a thread blocked in join: it stays so, except that the exit of its target wakes it. */
  lemma JoinerWokenByTarget(s: State, step: Step, p: Ptr)
    requires Inv(s) && Wellformed(s) && Enabled(s, step) && p in s.threads && s.threads[p].status == WaitThread
    ensures var s' := Next(s, step);
            p in s'.threads && s'.threads[p] ==
              s.threads[p].(status := if step == Exit && Me(s).id == s.threads[p].waitId then Active else WaitThread)
  {
    hide Queues, Waiters, Owners, Ids, Dispatch, Enqueue, Requeue, Handler;
    RunnableRunning(s);
    match step
    case Tick => HandlerThread(s, p);
    case YieldCall => HandlerThread(Yielding(s), p);
    case Exit => HandlerThread(Exiting(s), p);
    case Join(t) =>
      if JoinCode(s, t).OK? && s.threads[t].id !in s.done { HandlerThread(Joining(s, s.threads[t].id), p); }
    case Lock(m) =>
      if LockBlocks(s, m) { HandlerThread(Blocking(s, m), p); }
    case Unlock(m) =>
      if s.mutexes[m].queue != [] { FirstWaiter(s, m); }
    case Destroy(m) =>
      if s.mutexes[m].user == None { DestroyedKeeps(s, m); }
    case _ =>
  }

  lemma OnlyJoinWaitsCreate(s: State, n: Ptr, p: Ptr, q: Ptr)
    requires Inv(s) && Wellformed(s) && Enabled(s, Step.Create(n)) && WaitsFor(Next(s, Step.Create(n)), p, q)
    ensures WaitsFor(s, p, q)
  {
    hide Queues, Waiters, Owners, Enqueue, Ids;
    CreatedKeeps(s, n);
  }

  lemma OnlyJoinWaitsExit(s: State, p: Ptr, q: Ptr)
    requires Inv(s) && Wellformed(s) && Enabled(s, Step.Exit) && WaitsFor(Next(s, Step.Exit), p, q)
    ensures WaitsFor(s, p, q)
  {
    hide Queues, Waiters, Owners, Dispatch, Enqueue, Requeue, Handler;
    RunnableRunning(s);
    ExitWaiter(s);
    HandlerThread(Exiting(s), s.running);
    if p in s.threads {
      HandlerThread(Exiting(s), p);
    }
  }

  lemma OnlyJoinWaitsJoin(s: State, t: Ptr, p: Ptr, q: Ptr)
    requires Inv(s) && Wellformed(s) && Enabled(s, Join(t)) && WaitsFor(Next(s, Join(t)), p, q)
    ensures WaitsFor(s, p, q) || (JoinStarts(s, Join(t)) && p == s.running && q == JoinTarget(s, Join(t)))
  {
    hide Queues, Waiters, Owners, Dispatch, Enqueue, Requeue, Handler;
    RunnableRunning(s);
    if JoinCode(s, t).OK? && s.threads[t].id !in s.done {
      HandlerThread(Joining(s, s.threads[t].id), s.running);
      if p in s.threads { HandlerThread(Joining(s, s.threads[t].id), p); }
    }
  }

  lemma OnlyJoinWaitsLock(s: State, m: MutexPtr, p: Ptr, q: Ptr)
    requires Inv(s) && Wellformed(s) && Enabled(s, Lock(m)) && WaitsFor(Next(s, Lock(m)), p, q)
    ensures WaitsFor(s, p, q)
  {
    hide Queues, Waiters, Owners, Dispatch, Enqueue, Requeue, Handler;
    RunnableRunning(s);
    if LockBlocks(s, m) {
      HandlerThread(Blocking(s, m), s.running);
      if p in s.threads { HandlerThread(Blocking(s, m), p); }
    }
  }

  /** A step makes nobody wait but the caller of a join, and rebinds no id in use. */
  lemma OnlyJoinWaits(s: State, step: Step, p: Ptr, q: Ptr)
    requires Inv(s) && Wellformed(s) && Enabled(s, step)
    requires WaitsFor(Next(s, step), p, q)
    ensures WaitsFor(s, p, q) || (JoinStarts(s, step) && p == s.running && q == JoinTarget(s, step))
  {
    hide Queues, Waiters, Owners, Dispatch, Enqueue, Requeue, Handler;
    RunnableRunning(s);
    match step
    case Tick => HandlerThread(s, s.running); if p in s.threads { HandlerThread(s, p); }
    case Create(n) => OnlyJoinWaitsCreate(s, n, p, q);
    case YieldCall => HandlerThread(Yielding(s), s.running); if p in s.threads { HandlerThread(Yielding(s), p); }
    case Exit => OnlyJoinWaitsExit(s, p, q);
    case Join(t) => OnlyJoinWaitsJoin(s, t, p, q);
    case Lock(m) => OnlyJoinWaitsLock(s, m, p, q);
    case Destroy(m) =>
      if s.mutexes[m].user == None { DestroyedKeeps(s, m); }
    case _ =>
  }

  /** Every step keeps waiting acyclic. */
  lemma AcyclicStep(s: State, step: Step)
    requires Inv(s) && Wellformed(s) && Enabled(s, step) && Acyclic(s)
    ensures Acyclic(Next(s, step))
  {
    hide Inv, Possible, Orderly, WaitsFor, Acyclic, Next;
    var s' := Next(s, step);
    forall p, q | WaitsFor(s', p, q)
      ensures WaitsFor(s, p, q) || (JoinStarts(s, step) && p == s.running && q == JoinTarget(s, step))
    {
      OnlyJoinWaits(s, step, p, q);
    }
    if JoinStarts(s, step) {
      var y := JoinTarget(s, step);
      TargetIsOther(s, step);
      forall p
        ensures !WaitsFor(s, p, s.running)
      {
        NobodyWaitsForCaller(s, step.t, p);
      }
      NewWaiterAtTheEnd(s, s', s.running, y);
    } else {
      NoNewWaiting(s, s');
    }
  }

  predicate JoinStarts(s: State, step: Step)
    requires Wellformed(s)
  {
    step.Join? && step.t in s.threads && JoinCode(s, step.t).OK?
  }

  function JoinTarget(s: State, step: Step): Ptr
    requires Wellformed(s) && JoinStarts(s, step)
  {
    s.table[s.threads[step.t].id]
  }

  lemma TargetIsOther(s: State, step: Step)
    requires Inv(s) && Wellformed(s) && JoinStarts(s, step)
    ensures JoinTarget(s, step) != s.running
  {
    hide Queues, Locks, Joins;
  }

  /** Over every run from scheduler_init, no set of threads waits for each other in a circle. */
  lemma {:induction false} NeverACycle(states: seq<State>, steps: seq<Step>, main: Ptr, junk: int, n: nat)
    requires IsRun(states, steps) && states[0] == Init(main, junk) && n <= |steps|
    ensures Acyclic(states[n])
  {
    hide Inv, Enabled, Wellformed, Next, Acyclic;
    if n == 0 {
      NobodyWaitsAtFirst(main, junk);
    } else {
      NeverACycle(states, steps, main, junk, n - 1);
      EveryRunFromInit(states, steps, main, junk, n - 1);
      AcyclicStep(states[n - 1], steps[n - 1]);
    }
  }

  lemma NobodyWaitsAtFirst(main: Ptr, junk: int)
    ensures Acyclic(Init(main, junk))
  {
    var s := Init(main, junk);
    forall c
      ensures !Cycle(s, c)
    {
      assert c != [] ==> !WaitsFor(s, c[0], c[if 0 + 1 < |c| then 0 + 1 else 0]);
    }
  }

  /** A blocked joiner waits for a thread that has not exited and that nobody else waits for. */
  lemma BlockedOnLiveTarget(s: State, p: Ptr)
    requires Inv(s) && p in s.threads && s.threads[p].status == WaitThread
    ensures var id := s.threads[p].waitId;
            id in s.table && s.table[id] in s.threads && s.threads[s.table[id]].status != Exited && s.waiting[id] == p
  {
    hide Queues, Locks;
  }

  /** A new thread gets an id that no thread still in the table, and no thread that has not exited, has. */
  lemma NewIdIsFree(s: State, p: Ptr)
    requires Inv(s) && (s.freeIds != [] || s.count < 1000) && p in s.threads
    ensures 1 <= NewId(s) < 1000 && NewId(s) !in s.table
    ensures s.threads[p].status != Exited ==> s.threads[p].id != NewId(s)
  {
    hide Queues, Locks, Joins;
  }
}
