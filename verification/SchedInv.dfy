/** What every step of the scheduler keeps (asst1/my_pthread.c). */
module SchedInv {
  import opened Sched

  /** The ready queues: `cpu` are the runnable threads that are in no queue. */
  ghost predicate Queues(s: State, cpu: set<Ptr>) {
    && |s.ready| == 5 && 0 <= s.level < 5 && s.runAt == 0
    && (forall p :: p in s.threads ==> 0 <= s.threads[p].intervals <= s.threads[p].priority < 5)
    && (forall l, i :: 0 <= l < 5 && 0 <= i < |s.ready[l]| ==>
          var p := s.ready[l][i]; p in s.threads && Runnable(s.threads[p]) && s.threads[p].priority == l && p !in cpu)
    && (forall l, i, j :: 0 <= l < 5 && 0 <= i < j < |s.ready[l]| ==> s.ready[l][i] != s.ready[l][j])
    && (forall p :: p in s.threads && Runnable(s.threads[p]) && p !in cpu ==> p in s.ready[s.threads[p].priority])
    && (forall p :: p in cpu ==> p in s.threads && Runnable(s.threads[p]))
  }

  /** The wait queues: they hold exactly the threads blocked on a mutex, each once, in the queue of that mutex. */
  ghost predicate Waiters(s: State) {
    && (forall m, i :: m in s.mutexes && 0 <= i < |s.mutexes[m].queue| ==>
          var p := s.mutexes[m].queue[i]; p in s.threads && s.threads[p].status == WaitMutex && s.threads[p].pending == Claim(m))
    && (forall m, i, j :: m in s.mutexes && 0 <= i < j < |s.mutexes[m].queue| ==> s.mutexes[m].queue[i] != s.mutexes[m].queue[j])
    && (forall p :: p in s.threads && s.threads[p].status == WaitMutex ==>
          s.threads[p].pending.Claim? && s.threads[p].pending.m in s.mutexes && p in s.mutexes[s.threads[p].pending.m].queue)
  }

  /** The owners: a wait queue has an owner; whoever was woken for a mutex owns it; whoever holds it owns it; and the
      owner holds it or is about to claim it. */
  ghost predicate Owners(s: State) {
    && (forall p :: p in s.threads && s.threads[p].pending.Claim? && s.threads[p].status != WaitMutex ==>
          s.threads[p].pending.m in s.mutexes && s.mutexes[s.threads[p].pending.m].user == Some(p))
    && (forall m :: m in s.mutexes && s.mutexes[m].user == None ==> s.mutexes[m].queue == [])
    && (forall p, m :: (p, m) in s.holds ==>
          m in s.mutexes && s.mutexes[m].user == Some(p) && p in s.threads && s.threads[p].pending != Claim(m))
    && (forall m :: m in s.registered ==> m in s.mutexes)
    && (forall m :: m in s.mutexes && s.mutexes[m].user.Some? ==>
          var p := s.mutexes[m].user.value; p in s.threads && ((p, m) in s.holds || s.threads[p].pending == Claim(m)))
  }

  ghost predicate Locks(s: State) {
    Waiters(s) && Owners(s)
  }

  /** The joins: a joiner is the registered waiter of its target; it is blocked exactly as long as the target is not done. */
  ghost predicate Joins(s: State) {
    && (forall p :: p in s.threads && s.threads[p].status == WaitThread ==> s.threads[p].pending.Reap?)
    && (forall p :: p in s.threads && s.threads[p].pending.Reap? ==>
          var id := s.threads[p].pending.id;
          && id in s.waiting && s.waiting[id] == p && s.threads[p].waitId == id
          && (if id in s.done then Runnable(s.threads[p]) else s.threads[p].status == WaitThread))
    && (forall id :: id in s.waiting ==>
          id in s.table && s.waiting[id] in s.threads && s.threads[s.waiting[id]].pending == Reap(id))
  }

  /** The ids: those in the table and those in the free list partition [1, thread_count); a thread that has not exited
      has its own id. */
  ghost predicate Ids(s: State) {
    && (forall id :: id in s.table ==>
          && 1 <= id < s.count && s.table[id] in s.threads && s.threads[s.table[id]].id == id
          && (id in s.done <==> s.threads[s.table[id]].status == Exited))
    && (forall p :: p in s.threads && s.threads[p].status != Exited && p != s.main ==>
          s.threads[p].id in s.table && s.table[s.threads[p].id] == p)
    && s.main in s.threads && s.threads[s.main].id == 0
    && (forall i :: 0 <= i < |s.freeIds| ==> 1 <= s.freeIds[i] < s.count && s.freeIds[i] !in s.table)
    && (forall i, j :: 0 <= i < j < |s.freeIds| ==> s.freeIds[i] != s.freeIds[j])
    && (forall id :: 1 <= id < s.count ==> id in s.table || id in s.freeIds)
    && 1 <= s.count <= 1000
  }

  ghost predicate Inv(s: State) {
    && s.running in s.threads && Me(s).priority == s.level
    && Queues(s, {s.running}) && Locks(s) && Joins(s) && Ids(s)
  }

  // ---------------------------------------------------------------- transitions

  /** The source reaches the handler with this state, and its search ends. */
  predicate CanHandle(s: State) {
    Wellformed(s) && (!Continues(s) ==> SomeReady(Requeue(s).ready))
  }

  /** What the source needs for a step, to end without touching memory that is not its own. */
  predicate Possible(s: State, step: Step)
    requires Wellformed(s)
  {
    match step
    case Tick => CanHandle(s)
    case Create(p) => Me(s).pending.User? && p !in s.threads && (s.freeIds != [] || s.count < 1000)
    case YieldCall => Me(s).pending.User? && CanHandle(Yielding(s))
    case Exit => Me(s).pending.User? && CanHandle(Exiting(s))
    case Join(t) =>
      && Me(s).pending.User? && t in s.threads
      && (JoinCode(s, t).OK? && s.threads[t].id !in s.done ==> CanHandle(Joining(s, s.threads[t].id)))
    case DoReap => Me(s).pending.Reap?
    case MutexInit(m) => Me(s).pending.User?
    case Lock(m) =>
      Me(s).pending.User? && Live(s, m) && (LockBlocks(s, m) ==> CanHandle(Blocking(s, m)))
    case DoClaim => Me(s).pending.Claim? && Me(s).pending.m in s.mutexes
    case Unlock(m) => Me(s).pending.User? && Live(s, m) && QueueKnown(s, m)
    case Destroy(m) => Me(s).pending.User? && Live(s, m) && QueueKnown(s, m)
  }

  /** What POSIX asks of the callers beyond that: one joiner for a thread, and no new init of a mutex in use. */
  predicate Orderly(s: State, step: Step)
    requires Wellformed(s) && Possible(s, step)
  {
    match step
    case Join(t) => JoinCode(s, t).OK? ==> s.threads[t].id !in s.waiting
    case MutexInit(m) => m in s.mutexes ==> m in s.registered && s.mutexes[m].queue == []
    case _ => true
  }

  predicate Enabled(s: State, step: Step)
    requires Wellformed(s)
  {
    Possible(s, step) && Orderly(s, step)
  }

  predicate QueueKnown(s: State, m: MutexPtr)
    requires m in s.mutexes
  {
    forall i :: 0 <= i < |s.mutexes[m].queue| ==> s.mutexes[m].queue[i] in s.threads
  }

  predicate LockBlocks(s: State, m: MutexPtr)
    requires m in s.mutexes
  {
    s.mutexes[m].user.Some? && s.mutexes[m].user.value != s.running
  }

  function Next(s: State, step: Step): State
    requires Wellformed(s) && Possible(s, step)
  {
    match step
    case Tick => Handler(s)
    case Create(p) => Created(s, p)
    case YieldCall => Handler(Yielding(s))
    case Exit => Handler(Exiting(s))
    case Join(t) =>
      if !JoinCode(s, t).OK? then s
      else if s.threads[t].id !in s.done then Handler(Joining(s, s.threads[t].id))
      else Reaped(s, s.threads[t].id)
    case DoReap => Reaped(s, Me(s).pending.id)
    case MutexInit(m) => Initialized(s, m)
    case Lock(m) =>
      if LockBlocks(s, m) then Handler(Blocking(s, m))
      else if s.mutexes[m].user == None then Claimed(s, m)
      else s
    case DoClaim => Claimed(s, Me(s).pending.m)
    case Unlock(m) => if s.mutexes[m].user == Some(s.running) then Unlocked(s, m) else s
    case Destroy(m) => if m in s.registered && s.mutexes[m].user == None then Destroyed(s, m) else s
  }

  // ---------------------------------------------------------------- the handler keeps the invariant

  lemma InvWellformed(s: State)
    requires Inv(s)
    ensures Wellformed(s)
  {
  }

  // Each part of the invariant depends on some fields only.

  lemma LocksFrame(s: State, s': State)
    requires Locks(s)
    requires s'.mutexes == s.mutexes && s'.registered == s.registered && s'.holds == s.holds
    requires s'.threads.Keys == s.threads.Keys
    requires forall p :: p in s.threads ==>
               s'.threads[p].status == s.threads[p].status && s'.threads[p].pending == s.threads[p].pending
    ensures Locks(s')
  {
  }

  lemma QueuesFrame(s: State, s': State)
    requires Queues(s, {s.running})
    requires s'.threads == s.threads && s'.ready == s.ready && s'.level == s.level && s'.runAt == s.runAt && s'.running == s.running
    ensures Queues(s', {s'.running})
  {
  }

  lemma JoinsFrame(s: State, s': State)
    requires Joins(s)
    requires s'.waiting == s.waiting && s'.table == s.table && s'.done == s.done
    requires s'.threads.Keys == s.threads.Keys
    requires forall p :: p in s.threads ==>
               && s'.threads[p].status == s.threads[p].status && s'.threads[p].pending == s.threads[p].pending
               && s'.threads[p].waitId == s.threads[p].waitId
    ensures Joins(s')
  {
  }

  lemma IdsFrame(s: State, s': State)
    requires Ids(s)
    requires s'.table == s.table && s'.done == s.done && s'.freeIds == s.freeIds && s'.count == s.count && s'.main == s.main
    requires s'.threads.Keys == s.threads.Keys
    requires forall p :: p in s.threads ==>
               s'.threads[p].id == s.threads[p].id && (s'.threads[p].status == Exited <==> s.threads[p].status == Exited)
    ensures Ids(s')
  {
  }

  /** Only priorities and intervals, and the queues, changed. */
  lemma SchedulingFrame(s: State, s': State)
    requires Locks(s) && Joins(s) && Ids(s)
    requires s'.threads.Keys == s.threads.Keys
    requires forall p :: p in s.threads ==>
               s'.threads[p] == s.threads[p].(priority := s'.threads[p].priority, intervals := s'.threads[p].intervals)
    requires s' == s.(threads := s'.threads, ready := s'.ready, running := s'.running, level := s'.level, runAt := s'.runAt)
    ensures Locks(s') && Joins(s') && Ids(s')
  {
    hide Locks, Joins, Ids;
    LocksFrame(s, s');
    JoinsFrame(s, s');
    IdsFrame(s, s');
  }

  /** The running thread uses up one more interval. */
  lemma ContinueKeeps(s: State)
    requires Inv(s) && Continues(s)
    ensures Inv(Set(s, s.running, Me(s).(intervals := Me(s).intervals + 1)))
  {
    hide Locks, Joins, Ids;
    SchedulingFrame(s, Set(s, s.running, Me(s).(intervals := Me(s).intervals + 1)));
  }

  /** The handler puts an active or yielding thread at the back of a queue. */
  lemma RequeueRunnable(s: State)
    requires Inv(s) && !Continues(s) && Wellformed(s)
    ensures var s1 := Requeue(s); Queues(s1, {}) && Locks(s1) && Joins(s1) && Ids(s1) && SomeReady(s1.ready)
  {
    hide Locks, Joins, Ids;
    var s1 := Requeue(s);
    SchedulingFrame(s, s1);
    var q := s1.threads[s.running].priority;
    BackOfQueue(s, q, s1);
  }

  /** A runnable thread leaves the processor for queue q, which is the one of its priority. */
  lemma BackOfQueue(s: State, q: int, s1: State)
    requires Queues(s, {s.running}) && s.running in s.threads && 0 <= q < 5
    requires s1.ready == Enqueue(s.ready, q, s.running) && s1.level == s.level && s1.runAt == s.runAt
    requires s1.threads.Keys == s.threads.Keys
    requires forall p :: p in s.threads && p != s.running ==> s1.threads[p] == s.threads[p]
    requires Runnable(s1.threads[s.running]) && s1.threads[s.running].priority == q && 0 <= s1.threads[s.running].intervals <= q
    ensures Queues(s1, {}) && SomeReady(s1.ready)
  {
    assert s1.ready[q] == s.ready[q] + [s.running];
    assert s1.ready[q][|s.ready[q]|] == s.running;
    assert forall l :: 0 <= l < 5 && l != q ==> s1.ready[l] == s.ready[l];
  }

  /** The head of the first non-empty queue gets the processor. */
  lemma DispatchKeeps(s: State)
    requires Queues(s, {}) && Locks(s) && Joins(s) && Ids(s) && SomeReady(s.ready)
    ensures Inv(Dispatch(NextCounters(s)))
  {
    hide Locks, Joins, Ids;
    var s1 := Dispatch(NextCounters(s));
    SchedulingFrame(s, s1);
    var l := s1.level;
    assert s.ready[l][0] == s1.running;
    assert forall i :: 0 <= i < |s1.ready[l]| ==> s1.ready[l][i] == s.ready[l][i + 1];
    assert forall k :: 0 <= k < 5 && k != l ==> s1.ready[k] == s.ready[k];
    forall p | p in s1.threads && Runnable(s1.threads[p]) && p != s1.running
      ensures p in s1.ready[s1.threads[p].priority]
    {
      var k := s.threads[p].priority;
      var i :| 0 <= i < |s.ready[k]| && s.ready[k][i] == p;
      if k == l { assert s1.ready[l][i - 1] == p; }
    }
  }

  /** The handler, for a running thread that is runnable. */
  lemma TickKeeps(s: State)
    requires Inv(s) && CanHandle(s)
    ensures Inv(Handler(s))
  {
    hide Queues, Locks, Joins, Ids;
    if Continues(s) {
      ContinueKeeps(s);
    } else {
      RequeueRunnable(s);
      DispatchKeeps(Requeue(s));
    }
  }

  /** The handler, for a running thread that just blocked. */
  lemma BlockedKeeps(s: State)
    requires CanHandle(s) && Queues(s, {}) && Locks(s) && Joins(s) && Ids(s)
    requires Me(s).status == WaitMutex || Me(s).status == WaitThread
    ensures Inv(Handler(s))
  {
    hide Queues, Locks, Joins, Ids;
    DispatchKeeps(s);
  }

  /** A runnable thread leaves the processor and is in no queue. */
  lemma OffCpu(s: State, s1: State)
    requires Queues(s, {s.running}) && s.running in s.threads
    requires s1.ready == s.ready && s1.level == s.level && s1.runAt == s.runAt
    requires s1.threads.Keys == s.threads.Keys
    requires forall p :: p in s.threads && p != s.running ==> s1.threads[p] == s.threads[p]
    requires !Runnable(s1.threads[s.running])
    requires s1.threads[s.running].priority == s.threads[s.running].priority
    requires s1.threads[s.running].intervals == s.threads[s.running].intervals
    ensures Queues(s1, {})
  {
  }

  lemma YieldingKeeps(s: State)
    requires Inv(s) && Me(s).pending.User?
    ensures Inv(Yielding(s))
  {
    hide Locks, Joins, Ids;
    var s1 := Yielding(s);
    YieldingLocks(s);
    YieldingJoins(s);
    IdsFrame(s, s1);
  }

  lemma YieldingLocks(s: State)
    requires Inv(s)
    ensures Locks(Yielding(s))
  {
    hide Queues, Joins, Ids;
    RunnableRunning(s);
  }

  lemma YieldingJoins(s: State)
    requires Inv(s) && Me(s).pending.User?
    ensures Joins(Yielding(s))
  {
    hide Queues, Locks, Ids;
  }

  // my_pthread_mutex_lock

  lemma BlockingKeeps(s: State, m: MutexPtr)
    requires Inv(s) && m in s.mutexes && LockBlocks(s, m) && Me(s).pending.User?
    ensures var s1 := Blocking(s, m); Queues(s1, {}) && Locks(s1) && Joins(s1) && Ids(s1)
  {
    hide Locks, Joins, Ids;
    var s1 := Blocking(s, m);
    OffCpu(s, s1);
    BlockingLocks(s, m);
    BlockingJoins(s, m);
    IdsFrame(s, s1);
  }

  lemma BlockingLocks(s: State, m: MutexPtr)
    requires Inv(s) && m in s.mutexes && LockBlocks(s, m) && Me(s).pending.User?
    ensures Locks(Blocking(s, m))
  {
    hide Queues, Joins, Ids, Waiters, Owners;
    RunnableRunning(s);
    BlockingWaiters(s, m);
    BlockingOwners(s, m);
  }

  lemma BlockingWaiters(s: State, m: MutexPtr)
    requires Waiters(s) && s.running in s.threads && m in s.mutexes && Runnable(Me(s)) && Me(s).pending.User?
    ensures Waiters(Blocking(s, m))
  {
    var s1 := Blocking(s, m);
    assert s1.mutexes[m].queue[|s.mutexes[m].queue|] == s.running;
  }

  lemma BlockingOwners(s: State, m: MutexPtr)
    requires Owners(s) && s.running in s.threads && m in s.mutexes && LockBlocks(s, m) && Me(s).pending.User?
    ensures Owners(Blocking(s, m))
  {
  }

  lemma BlockingJoins(s: State, m: MutexPtr)
    requires Inv(s) && m in s.mutexes && Me(s).pending.User?
    ensures Joins(Blocking(s, m))
  {
    hide Queues, Locks, Ids;
  }

  lemma RunnableRunning(s: State)
    requires Inv(s)
    ensures Runnable(Me(s))
  {
  }

  lemma ClaimedKeeps(s: State, m: MutexPtr)
    requires Inv(s) && m in s.mutexes
    requires (s.mutexes[m].user == None && Me(s).pending.User?) || Me(s).pending == Claim(m)
    ensures Inv(Claimed(s, m))
    ensures Me(s).pending == Claim(m) ==> s.mutexes[m].user == Some(s.running)
  {
    hide Locks, Joins, Ids;
    ClaimedLocks(s, m);
    ClaimedJoins(s, m);
    IdsFrame(s, Claimed(s, m));
  }

  lemma ClaimedLocks(s: State, m: MutexPtr)
    requires Inv(s) && m in s.mutexes
    requires (s.mutexes[m].user == None && Me(s).pending.User?) || Me(s).pending == Claim(m)
    ensures Locks(Claimed(s, m))
    ensures Me(s).pending == Claim(m) ==> s.mutexes[m].user == Some(s.running)
  {
    hide Queues, Joins, Ids, Waiters, Owners;
    ClaimedWaiters(s, m);
    ClaimedOwners(s, m);
  }

  lemma ClaimedWaiters(s: State, m: MutexPtr)
    requires Inv(s) && m in s.mutexes
    ensures Waiters(Claimed(s, m))
  {
    hide Queues, Joins, Ids, Owners;
    RunnableRunning(s);
  }

  lemma ClaimedOwners(s: State, m: MutexPtr)
    requires Inv(s) && m in s.mutexes
    requires (s.mutexes[m].user == None && Me(s).pending.User?) || Me(s).pending == Claim(m)
    ensures Owners(Claimed(s, m))
    ensures Me(s).pending == Claim(m) ==> s.mutexes[m].user == Some(s.running)
  {
    hide Queues, Joins, Ids, Waiters;
    RunnableRunning(s);
  }

  lemma ClaimedJoins(s: State, m: MutexPtr)
    requires Inv(s) && m in s.mutexes && !Me(s).pending.Reap?
    ensures Joins(Claimed(s, m))
  {
    hide Queues, Locks, Ids;
  }

  // my_pthread_mutex_unlock

  lemma UnlockedKeeps(s: State, m: MutexPtr)
    requires Inv(s) && m in s.mutexes && s.mutexes[m].user == Some(s.running) && Me(s).pending.User?
    requires Wellformed(s) && QueueKnown(s, m)
    ensures Inv(Unlocked(s, m))
  {
    hide Queues, Locks, Joins, Ids;
    UnlockedQueues(s, m);
    UnlockedLocks(s, m);
    UnlockedJoins(s, m);
    UnlockedIds(s, m);
  }

  /** The first waiter, if any, is blocked on this mutex and is not the running thread. */
  lemma FirstWaiter(s: State, m: MutexPtr)
    requires Inv(s) && m in s.mutexes && s.mutexes[m].queue != []
    ensures var w := s.mutexes[m].queue[0];
            w in s.threads && w != s.running && s.threads[w].status == WaitMutex && s.threads[w].pending == Claim(m)
  {
    hide Joins, Ids;
  }

  /** A blocked thread becomes runnable and joins the queue of its priority. */
  lemma WokenQueues(s: State, cpu: set<Ptr>, w: Ptr, s1: State)
    requires Queues(s, cpu) && w in s.threads && !Runnable(s.threads[w]) && w !in cpu
    requires s1.threads == s.threads[w := s.threads[w].(status := Active)]
    requires s1.ready == Enqueue(s.ready, s.threads[w].priority, w) && s1.level == s.level && s1.runAt == s.runAt
    ensures Queues(s1, cpu)
  {
    var q := s.threads[w].priority;
    assert s1.ready[q] == s.ready[q] + [w];
    assert s1.ready[q][|s.ready[q]|] == w;
    assert forall l :: 0 <= l < 5 && l != q ==> s1.ready[l] == s.ready[l];
  }

  lemma UnlockedQueues(s: State, m: MutexPtr)
    requires Inv(s) && m in s.mutexes && s.mutexes[m].user == Some(s.running)
    requires Wellformed(s) && QueueKnown(s, m)
    ensures var s1 := Unlocked(s, m); Queues(s1, {s1.running}) && s1.running in s1.threads && Me(s1).priority == s1.level
  {
    hide Locks, Joins, Ids;
    if s.mutexes[m].queue != [] {
      FirstWaiter(s, m);
      WokenQueues(s, {s.running}, s.mutexes[m].queue[0], Unlocked(s, m));
    }
  }

  lemma UnlockedLocks(s: State, m: MutexPtr)
    requires Inv(s) && m in s.mutexes && s.mutexes[m].user == Some(s.running) && Me(s).pending.User?
    requires Wellformed(s) && QueueKnown(s, m)
    ensures Locks(Unlocked(s, m))
  {
    hide Queues, Joins, Ids, Waiters, Owners, Enqueue;
    UnlockedWaiters(s, m);
    UnlockedOwners(s, m);
  }

  lemma InTail(q: seq<Ptr>, p: Ptr)
    requires p in q && q[0] != p
    ensures p in q[1..]
  {
    var i :| 0 <= i < |q| && q[i] == p;
    assert q[1..][i - 1] == p;
  }

  lemma UnlockedWaiters(s: State, m: MutexPtr)
    requires Inv(s) && m in s.mutexes && Wellformed(s) && QueueKnown(s, m)
    ensures Waiters(Unlocked(s, m))
  {
    hide Queues, Joins, Ids, Owners, Waiters, Enqueue;
    var q, s1 := s.mutexes[m].queue, Unlocked(s, m);
    if q != [] {
      FirstWaiter(s, m);
      WaitersPop(s, m, s1);
    } else {
      WaitersSame(s, s1);
    }
  }

  lemma WaitersSame(s: State, s1: State)
    requires Waiters(s) && s1.threads == s.threads && s1.mutexes.Keys == s.mutexes.Keys
    requires forall m :: m in s.mutexes ==> s1.mutexes[m].queue == s.mutexes[m].queue
    ensures Waiters(s1)
  {
  }

  /** The first waiter leaves the queue of m and is woken. */
  lemma WaitersPop(s: State, m: MutexPtr, s1: State)
    requires Waiters(s) && m in s.mutexes && s.mutexes[m].queue != [] && s.mutexes[m].queue[0] in s.threads
    requires var w := s.mutexes[m].queue[0]; s1.threads == s.threads[w := s.threads[w].(status := Active)]
    requires m in s1.mutexes && s1.mutexes == s.mutexes[m := s1.mutexes[m]] && s1.mutexes[m].queue == s.mutexes[m].queue[1..]
    ensures Waiters(s1)
  {
    var q := s.mutexes[m].queue;
    forall p | p in s1.threads && s1.threads[p].status == WaitMutex
      ensures s1.threads[p].pending.Claim? && s1.threads[p].pending.m in s1.mutexes
      ensures p in s1.mutexes[s1.threads[p].pending.m].queue
    {
      if s.threads[p].pending.m == m {
        InTail(q, p);
      }
    }
  }

  lemma UnlockedOwners(s: State, m: MutexPtr)
    requires Inv(s) && m in s.mutexes && s.mutexes[m].user == Some(s.running) && Me(s).pending.User?
    requires Wellformed(s) && QueueKnown(s, m)
    ensures Owners(Unlocked(s, m))
  {
    hide Queues, Joins, Ids, Waiters, Enqueue;
    if s.mutexes[m].queue != [] {
      FirstWaiter(s, m);
    }
  }

  lemma UnlockedJoins(s: State, m: MutexPtr)
    requires Inv(s) && m in s.mutexes && Wellformed(s) && QueueKnown(s, m)
    ensures Joins(Unlocked(s, m))
  {
    hide Queues, Locks, Ids, Enqueue;
    if s.mutexes[m].queue != [] {
      FirstWaiter(s, m);
    }
  }

  lemma UnlockedIds(s: State, m: MutexPtr)
    requires Inv(s) && m in s.mutexes && Wellformed(s) && QueueKnown(s, m)
    ensures Ids(Unlocked(s, m))
  {
    hide Queues, Locks, Joins, Ids, Enqueue;
    if s.mutexes[m].queue != [] {
      FirstWaiter(s, m);
    }
    IdsFrame(s, Unlocked(s, m));
  }

  // my_pthread_mutex_init and my_pthread_mutex_destroy

  lemma InitializedParts(s: State, m: MutexPtr)
    ensures var s1 := Initialized(s, m); s1 == s.(mutexes := s1.mutexes, registered := s1.registered)
  {
  }

  lemma InitializedLocks(s: State, m: MutexPtr)
    requires Locks(s) && (m in s.mutexes ==> m in s.registered && s.mutexes[m].queue == [])
    ensures Locks(Initialized(s, m))
  {
    hide Waiters, Owners;
    InitializedWaiters(s, m);
    InitializedOwners(s, m);
  }

  lemma InitializedWaiters(s: State, m: MutexPtr)
    requires Waiters(s) && (m in s.mutexes ==> s.mutexes[m].queue == [])
    ensures Waiters(Initialized(s, m))
  {
  }

  lemma InitializedOwners(s: State, m: MutexPtr)
    requires Owners(s) && (m in s.mutexes ==> m in s.registered && s.mutexes[m].queue == [])
    ensures Owners(Initialized(s, m))
  {
  }

  lemma InitializedKeeps(s: State, m: MutexPtr)
    requires Inv(s) && (m in s.mutexes ==> m in s.registered && s.mutexes[m].queue == [])
    ensures Inv(Initialized(s, m))
  {
    hide Joins, Ids, Queues, Waiters, Owners, Initialized;
    InitializedParts(s, m);
    InitializedLocks(s, m);
    QueuesFrame(s, Initialized(s, m));
    JoinsFrame(s, Initialized(s, m));
    IdsFrame(s, Initialized(s, m));
  }

  /** Destroying an unlocked mutex has no waiter to move: a queue always has an owner. */
  lemma DestroyedKeeps(s: State, m: MutexPtr)
    requires Inv(s) && m in s.mutexes && s.mutexes[m].user == None && Wellformed(s) && QueueKnown(s, m)
    ensures s.mutexes[m].queue == [] && Destroyed(s, m) == s.(mutexes := s.mutexes[m := Mutex(None, [], false)])
    ensures Inv(Destroyed(s, m))
  {
    hide Joins, Ids, Queues, Locks;
    var s1 := s.(mutexes := s.mutexes[m := Mutex(None, [], false)]);
    DestroyedLocks(s, m);
    QueuesFrame(s, s1);
    JoinsFrame(s, s1);
    IdsFrame(s, s1);
  }

  lemma DestroyedLocks(s: State, m: MutexPtr)
    requires Locks(s) && m in s.mutexes && s.mutexes[m].user == None
    ensures s.mutexes[m].queue == [] && Locks(s.(mutexes := s.mutexes[m := Mutex(None, [], false)]))
  {
  }

  // my_pthread_create

  lemma CreatedKeeps(s: State, p: Ptr)
    requires Inv(s) && p !in s.threads && (s.freeIds != [] || s.count < 1000)
    ensures Inv(Created(s, p))
    ensures NewId(s) !in s.table
  {
    hide Queues, Locks, Joins, Ids;
    CreatedIds(s, p);
    CreatedQueues(s, p);
    CreatedLocks(s, p);
    CreatedJoins(s, p);
  }

  lemma CreatedQueues(s: State, p: Ptr)
    requires Inv(s) && p !in s.threads && |s.ready| == 5
    ensures var s1 := Created(s, p); Queues(s1, {s1.running}) && s1.running in s1.threads && Me(s1).priority == s1.level
  {
    hide Locks, Joins, Ids;
    var s1 := Created(s, p);
    assert s1.ready[0] == s.ready[0] + [p] && s1.ready[0][|s.ready[0]|] == p;
    assert forall l :: 0 < l < 5 ==> s1.ready[l] == s.ready[l];
  }

  lemma CreatedLocks(s: State, p: Ptr)
    requires Inv(s) && p !in s.threads && |s.ready| == 5
    ensures Locks(Created(s, p))
  {
    hide Queues, Joins, Ids, Enqueue, NewId, Waiters, Owners;
    CreatedWaiters(s, p);
    CreatedOwners(s, p);
  }

  lemma CreatedWaiters(s: State, p: Ptr)
    requires Waiters(s) && p !in s.threads && |s.ready| == 5
    ensures Waiters(Created(s, p))
  {
    hide Enqueue, NewId;
  }

  lemma CreatedOwners(s: State, p: Ptr)
    requires Owners(s) && p !in s.threads && |s.ready| == 5
    ensures Owners(Created(s, p))
  {
    hide Enqueue, NewId;
  }

  lemma CreatedJoins(s: State, p: Ptr)
    requires Inv(s) && p !in s.threads && |s.ready| == 5 && NewId(s) !in s.table
    ensures Joins(Created(s, p))
  {
    hide Queues, Locks, Ids, Enqueue, NewId;
  }

  /** The new id is free, recycled or not, and the partition is kept. */
  lemma CreatedIds(s: State, p: Ptr)
    requires Inv(s) && p !in s.threads && (s.freeIds != [] || s.count < 1000)
    ensures |s.ready| == 5 && NewId(s) !in s.table && Ids(Created(s, p))
  {
    hide Locks, Joins, Ids, Created;
    AddIds(s, p);
  }

  lemma AddIds(s: State, p: Ptr)
    requires Ids(s) && |s.ready| == 5 && p !in s.threads && (s.freeIds != [] || s.count < 1000)
    ensures NewId(s) !in s.table && Ids(Created(s, p))
  {
    hide Enqueue;
    if s.freeIds != [] {
      TailFree(s.freeIds);
    }
  }

  // my_pthread_join and pthread_exit

  /** Threads that have nothing to do with a mutex changed. */
  lemma LocksOther(s: State, s': State)
    requires Locks(s)
    requires s'.mutexes == s.mutexes && s'.registered == s.registered && s'.holds == s.holds
    requires s'.threads.Keys == s.threads.Keys
    requires forall p :: p in s.threads ==>
               || (s'.threads[p].status == s.threads[p].status && s'.threads[p].pending == s.threads[p].pending)
               || (!s.threads[p].pending.Claim? && !s'.threads[p].pending.Claim? && s'.threads[p].status != WaitMutex)
    ensures Locks(s')
  {
  }

  lemma JoiningKeeps(s: State, id: int)
    requires Inv(s) && Me(s).pending.User? && id in s.table && id !in s.done && id !in s.waiting
    ensures var s1 := Joining(s, id); Queues(s1, {}) && Locks(s1) && Joins(s1) && Ids(s1)
  {
    hide Locks, Joins, Ids;
    var s1 := Joining(s, id);
    OffCpu(s, s1);
    LocksOther(s, s1);
    JoiningJoins(s, id);
    IdsFrame(s, s1);
  }

  lemma JoiningJoins(s: State, id: int)
    requires Joins(s) && s.running in s.threads && Me(s).pending.User? && id in s.table && id !in s.done && id !in s.waiting
    ensures Joins(Joining(s, id))
  {
  }

  /** The reaper of id: the registered joiner, or one that came after the target was done. */
  lemma ReapedKeeps(s: State, id: int)
    requires Inv(s) && id in s.table && id in s.done
    requires Me(s).pending == Reap(id) || (Me(s).pending.User? && id !in s.waiting)
    ensures Inv(Reaped(s, id))
  {
    hide Locks, Joins, Ids;
    var s1 := Reaped(s, id);
    RunnableRunning(s);
    LocksOther(s, s1);
    ReapedJoins(s, id);
    ReapedIds(s, id);
  }

  lemma ReapedJoins(s: State, id: int)
    requires Inv(s)
    requires Me(s).pending == Reap(id) || (Me(s).pending.User? && id !in s.waiting)
    ensures Joins(Reaped(s, id))
  {
    hide Queues, Locks, Ids;
    RunnableRunning(s);
  }

  lemma ReapedIds(s: State, id: int)
    requires Ids(s) && s.running in s.threads && id in s.table && id in s.done
    ensures Ids(Reaped(s, id))
  {
    var s1 := Reaped(s, id);
    ConsFree(id, s.freeIds);
  }

  lemma TailFree(free: seq<int>)
    requires free != [] && forall i, j :: 0 <= i < j < |free| ==> free[i] != free[j]
    ensures var free' := free[1..];
            && (forall i, j :: 0 <= i < j < |free'| ==> free'[i] != free'[j])
            && (forall i :: 0 <= i < |free'| ==> free'[i] != free[0] && free'[i] in free)
            && (forall x :: x in free ==> x == free[0] || x in free')
  {
    forall x | x in free
      ensures x == free[0] || x in free[1..]
    {
      var i :| 0 <= i < |free| && free[i] == x;
      assert i > 0 ==> free[1..][i - 1] == x;
    }
  }

  lemma ConsFree(id: int, free: seq<int>)
    requires id !in free && forall i, j :: 0 <= i < j < |free| ==> free[i] != free[j]
    ensures var free' := [id] + free;
            && (forall i, j :: 0 <= i < j < |free'| ==> free'[i] != free'[j])
            && (forall i :: 0 <= i < |free'| ==> free'[i] == id || free'[i] in free)
            && (forall x :: x in free ==> x in free')
  {
  }

  /** A woken joiner finds its target done and still in the table. */
  lemma ReaperReady(s: State)
    requires Inv(s) && Me(s).pending.Reap?
    ensures Me(s).pending.id in s.table && Me(s).pending.id in s.done && s.waiting[Me(s).pending.id] == s.running
  {
    hide Locks, Ids;
  }

  lemma ExitKeeps(s: State)
    requires Inv(s) && Me(s).pending.User? && CanHandle(Exiting(s))
    ensures Inv(Handler(Exiting(s)))
  {
    hide Queues, Locks, Joins, Ids;
    var s1 := Exiting(s);
    ExitQueues(s);
    ExitLocks(s);
    ExitJoins(s);
    ExitIds(s);
    DispatchKeeps(Requeue(s1));
  }

  /** The waiter of the exiting thread, if any, is blocked in join on it. */
  lemma ExitWaiter(s: State)
    requires Inv(s) && Me(s).pending.User?
    ensures Me(s).id !in s.done || Me(s).id == 0
    ensures Me(s).id in s.waiting ==>
              var w := s.waiting[Me(s).id];
              && Me(s).id !in s.done
              && w in s.threads && w != s.running && s.threads[w].status == WaitThread && s.threads[w].pending == Reap(Me(s).id)
  {
    hide Locks;
  }

  lemma ExitQueues(s: State)
    requires Inv(s) && Me(s).pending.User? && Wellformed(Exiting(s))
    ensures Queues(Requeue(Exiting(s)), {})
  {
    hide Locks, Joins, Ids;
    ExitWaiter(s);
    var s1 := Exiting(s);
    OffCpu(s, s1);
    if Me(s).id in s.waiting {
      WokenQueues(s1, {}, s.waiting[Me(s).id], Requeue(s1));
    }
  }

  lemma ExitLocks(s: State)
    requires Inv(s) && Me(s).pending.User? && Wellformed(Exiting(s))
    ensures Locks(Requeue(Exiting(s)))
  {
    hide Queues, Locks, Joins, Ids, Enqueue;
    ExitWaiter(s);
    RunnableRunning(s);
    LocksOther(s, Requeue(Exiting(s)));
  }

  lemma ExitJoins(s: State)
    requires Inv(s) && Me(s).pending.User? && Wellformed(Exiting(s))
    ensures Joins(Requeue(Exiting(s)))
  {
    hide Queues, Locks, Ids, Enqueue;
    ExitWaiter(s);
    RunnableRunning(s);
  }

  lemma ExitIds(s: State)
    requires Inv(s) && Me(s).pending.User? && Wellformed(Exiting(s))
    ensures Ids(Requeue(Exiting(s)))
  {
    hide Queues, Locks, Joins, Enqueue;
    ExitWaiter(s);
    RunnableRunning(s);
  }

  // ---------------------------------------------------------------- every step, every run

  /** Every step keeps the invariant. */
  lemma StepKeeps(s: State, step: Step)
    requires Inv(s) && Wellformed(s) && Enabled(s, step)
    ensures Inv(Next(s, step))
  {
    hide Queues, Locks, Joins, Ids, Requeue, Dispatch;
    match step
    case Tick => TickKeeps(s);
    case Create(p) => CreatedKeeps(s, p);
    case YieldCall =>
      YieldingKeeps(s);
      TickKeeps(Yielding(s));
    case Exit => ExitKeeps(s);
    case Join(t) =>
      var id := s.threads[t].id;
      if JoinCode(s, t).OK? {
        if id !in s.done {
          JoiningKeeps(s, id);
          BlockedKeeps(Joining(s, id));
        } else {
          ReapedKeeps(s, id);
        }
      }
    case DoReap =>
      ReaperReady(s);
      ReapedKeeps(s, Me(s).pending.id);
    case MutexInit(m) => InitializedKeeps(s, m);
    case Lock(m) =>
      if LockBlocks(s, m) {
        BlockingKeeps(s, m);
        BlockedKeeps(Blocking(s, m));
      } else if s.mutexes[m].user == None {
        ClaimedKeeps(s, m);
      }
    case DoClaim => ClaimedKeeps(s, Me(s).pending.m);
    case Unlock(m) =>
      if s.mutexes[m].user == Some(s.running) { UnlockedKeeps(s, m); }
    case Destroy(m) =>
      if s.mutexes[m].user == None { DestroyedKeeps(s, m); }
  }

  lemma InitInv(main: Ptr, junk: int)
    ensures Inv(Init(main, junk))
  {
  }
}
