/** What each step does to each part of the scheduler, in terms of the fields before it (asst1/my_pthread.c:214-551). */
module SchedThreads {
  import opened Sched
  import opened SchedInv
  import opened SchedRuns
  import opened SchedJoin

  // ---------------------------------------------------------------- the checks of join

  /** Which code a join returns, and when. */
  lemma JoinCodes(s: State, t: Ptr)
    requires Wellformed(s) && t in s.threads
    ensures var me, other := s.threads[s.running], s.threads[t];
            var deadlock := me.id == other.id || other.waitId == me.id;
            && (JoinCode(s, t) == OK <==> !deadlock && !WaitedFor(s) && other.id in s.table)
            && (JoinCode(s, t) == EDEADLK <==> deadlock)
            && (JoinCode(s, t) == EINVAL <==> !deadlock && WaitedFor(s))
            && (JoinCode(s, t) == ESRCH <==> !deadlock && !WaitedFor(s) && other.id !in s.table)
  {
    if WaitedFor(s) {
      var id :| id in s.waiting && s.waiting[id] in s.threads && s.threads[s.waiting[id]].waitId == s.threads[s.running].id;
      assert id in s.waiting && s.threads[s.waiting[id]].waitId == Me(s).id;
    } else {
      assert forall id :: id in s.waiting ==> s.threads[s.waiting[id]].waitId != Me(s).id;
    }
  }

  /** Some registered joiner has the caller's id as its wait_id. */
  predicate WaitedFor(s: State)
    requires s.running in s.threads
  {
    exists id :: id in s.waiting && s.waiting[id] in s.threads && s.threads[s.waiting[id]].waitId == s.threads[s.running].id
  }

  /** A join that goes on reaps a target that is done, whoever waits for it, and lets the caller go on; else it registers the
      caller, and another thread runs. */
  lemma JoinEffects(s: State, t: Ptr)
    requires Inv(s) && Wellformed(s) && Possible(s, Join(t))
    ensures t in s.threads
    ensures var s', id := Next(s, Join(t)), s.threads[t].id;
            && (JoinCode(s, t) != OK ==> s' == s)
            && (JoinCode(s, t) == OK && id in s.done ==>
                  && s'.table == s.table - {id} && s'.waiting == s.waiting - {id} && s'.freeIds == [id] + s.freeIds
                  && s'.done == s.done && s'.running == s.running && s'.ready == s.ready && s'.threads == s.threads)
            && (JoinCode(s, t) == OK && id !in s.done ==>
                  && s'.waiting == s.waiting[id := s.running] && s'.table == s.table && s'.freeIds == s.freeIds
                  && s.running in s'.threads
                  && s'.threads[s.running] == s.threads[s.running].(status := WaitThread, waitId := id, pending := Reap(id))
                  && s'.running != s.running)
  {
    hide Locks, Joins, Ids, Handler;
    CallerChanges(s, Join(t));
    BooksChange(s, Join(t));
    var id := s.threads[t].id;
    if JoinCode(s, t) == OK {
      if id in s.done {
        assert s.threads[s.running := Me(s).(pending := User)] == s.threads;
      } else {
        var d := HandlerDispatches(Joining(s, id));
        PutAwayReady(Joining(s, id));
      }
    }
  }

  // ---------------------------------------------------------------- threads

  /** Thread p is blocked and the step ends what it waits for: the exit of its target, or the owner's unlock of the mutex at
      whose queue it is first. */
  predicate Woken(s: State, step: Step, p: Ptr)
    requires s.running in s.threads && p in s.threads
  {
    || (step == Exit && s.threads[p].status == WaitThread && s.threads[p].waitId == s.threads[s.running].id)
    || (step.Unlock? && step.m in s.mutexes && s.mutexes[step.m].user == Some(s.running)
        && s.mutexes[step.m].queue != [] && s.mutexes[step.m].queue[0] == p)
  }

  lemma HandlerOthers(s: State, p: Ptr)
    requires CanHandle(s) && p in s.threads && p != s.running && !Wakes(s, p)
    ensures p in Handler(s).threads && Handler(s).threads[p] == s.threads[p]
  {
    hide Handler;
    HandlerThread(s, p);
  }

  /** A step changes nothing of a thread other than the caller, except that a woken one becomes active: its priority, its
      intervals and its ids stay. */
  lemma OthersChange(s: State, step: Step, p: Ptr)
    requires Inv(s) && Wellformed(s) && Possible(s, step) && p in s.threads && p != s.running
    ensures var s' := Next(s, step);
            && p in s'.threads
            && s'.threads[p] == s.threads[p].(status := if Woken(s, step, p) then Active else s.threads[p].status)
  {
    hide Inv, Handler, Dispatch, Requeue, Enqueue, Drain, CanHandle, Unlocked;
    match step
    case Tick => RunnableRunning(s); HandlerOthers(s, p);
    case YieldCall => HandlerOthers(Yielding(s), p);
    case Exit => ExitOthers(s, p);
    case Join(t) =>
      if JoinCode(s, t).OK? && s.threads[t].id !in s.done { HandlerOthers(Joining(s, s.threads[t].id), p); }
    case Lock(m) =>
      if LockBlocks(s, m) { HandlerOthers(Blocking(s, m), p); }
    case Unlock(m) => UnlockOthers(s, m, p);
    case Destroy(m) =>
      if s.mutexes[m].user == None { DestroyedKeeps(s, m); }
    case _ =>
  }

  lemma ExitOthers(s: State, p: Ptr)
    requires Inv(s) && Wellformed(s) && Possible(s, Exit) && p in s.threads && p != s.running
    ensures var s' := Next(s, Exit);
            && p in s'.threads
            && s'.threads[p] == s.threads[p].(status := if Woken(s, Exit, p) then Active else s.threads[p].status)
  {
    hide Queues, Locks, Handler;
    ExitWaiter(s);
    HandlerThread(Exiting(s), p);
  }

  lemma UnlockOthers(s: State, m: MutexPtr, p: Ptr)
    requires Inv(s) && Wellformed(s) && Possible(s, Unlock(m)) && p in s.threads && p != s.running
    ensures var s' := Next(s, Unlock(m));
            && p in s'.threads
            && s'.threads[p] == s.threads[p].(status := if Woken(s, Unlock(m), p) then Active else s.threads[p].status)
  {
    hide Inv, Enqueue;
  }

  /** What becomes of a thread that waits for a mutex: it stays as it is, except that the unlock that hands it the mutex makes
      it active, and last in the ready queue of the priority it had; no other queue gains a thread. */
  lemma WaiterWokenByOwner(s: State, step: Step, p: Ptr)
    requires Inv(s) && Wellformed(s) && Possible(s, step) && p in s.threads && s.threads[p].status == WaitMutex
    ensures var s' := Next(s, step);
            && p in s'.threads
            && (if Woken(s, step, p) then
                  && s'.threads[p] == s.threads[p].(status := Active)
                  && 0 <= s.threads[p].priority < 5
                  && s'.ready == s.ready[s.threads[p].priority := s.ready[s.threads[p].priority] + [p]]
                  && s'.running == s.running && s'.level == s.level
                else s'.threads[p] == s.threads[p])
  {
    hide Inv, Handler, Enqueue, Next;
    RunnableRunning(s);
    OthersChange(s, step, p);
    if Woken(s, step, p) {
      WokenLast(s, step.m, p);
    }
  }

  lemma WokenLast(s: State, m: MutexPtr, p: Ptr)
    requires Inv(s) && Wellformed(s) && Possible(s, Unlock(m)) && p in s.threads && Woken(s, Unlock(m), p)
    ensures var s', l := Next(s, Unlock(m)), s.threads[p].priority;
            0 <= l < 5 && s'.ready == s.ready[l := s.ready[l] + [p]] && s'.running == s.running && s'.level == s.level
  {
    hide Inv;
  }

  /** The owner's unlock hands the mutex to the first waiter, if any, and makes it ready where it left off. */
  lemma UnlockEffects(s: State, m: MutexPtr)
    requires Inv(s) && Wellformed(s) && Possible(s, Unlock(m)) && s.mutexes[m].user == Some(s.running)
    ensures var s', q := Next(s, Unlock(m)), s.mutexes[m].queue;
            if q == [] then
              && s'.threads == s.threads && s'.ready == s.ready
              && m in s'.mutexes && s'.mutexes[m].user == None && s'.mutexes[m].queue == []
            else
              && q[0] in s.threads && 0 <= s.threads[q[0]].priority < 5
              && s'.threads == s.threads[q[0] := s.threads[q[0]].(status := Active)]
              && s'.ready == s.ready[s.threads[q[0]].priority := s.ready[s.threads[q[0]].priority] + [q[0]]]
              && m in s'.mutexes && s'.mutexes[m].user == Some(q[0]) && s'.mutexes[m].queue == q[1..]
  {
    hide Inv;
  }

  /** What a step does to the thread that takes it. */
  lemma CallerChanges(s: State, step: Step)
    requires Inv(s) && Wellformed(s) && Possible(s, step)
    ensures var t := s.threads[s.running];
            var s' := Next(s, step);
            && s.running in s'.threads
            && s'.threads[s.running] ==
               match step
               case Tick =>
                 if t.status == Yield then t
                 else if t.intervals < s.level then t.(intervals := t.intervals + 1)
                 else t.(intervals := 0, priority := (t.priority + 1) % 5)
               case YieldCall => t.(status := Yield)
               case Exit => t.(status := Exited)
               case Join(u) =>
                 if JoinCode(s, u) == OK && s.threads[u].id !in s.done
                 then t.(status := WaitThread, waitId := s.threads[u].id, pending := Reap(s.threads[u].id)) else t
               case Lock(m) =>
                 if s.mutexes[m].user != None && s.mutexes[m].user != Some(s.running)
                 then t.(status := WaitMutex, pending := Claim(m)) else t
               case DoReap => t.(pending := User)
               case DoClaim => t.(pending := User)
               case _ => t
  {
    hide Inv, Handler, Dispatch, Enqueue, Drain, Requeue;
    RunnableRunning(s);
    match step
    case Tick => TickCaller(s);
    case YieldCall => PutAwayCaller(Yielding(s));
    case Exit => ExitCaller(s);
    case Join(u) =>
      if JoinCode(s, u).OK? && s.threads[u].id !in s.done { PutAwayCaller(Joining(s, s.threads[u].id)); }
    case Lock(m) =>
      if LockBlocks(s, m) { PutAwayCaller(Blocking(s, m)); }
    case Unlock(m) => UnlockCaller(s, m);
    case Destroy(m) =>
      if s.mutexes[m].user == None { DestroyedKeeps(s, m); }
    case _ =>
  }

  lemma TickCaller(s: State)
    requires CanHandle(s) && Runnable(Me(s))
    ensures s.running in Handler(s).threads
    ensures var t := Me(s);
            Handler(s).threads[s.running] ==
              if t.status == Yield then t
              else if t.intervals < s.level then t.(intervals := t.intervals + 1)
              else t.(intervals := 0, priority := (t.priority + 1) % 5)
  {
    hide Dispatch, NextCounters;
    if !Continues(s) {
      hide Handler;
      DispatchThreads(s);
    }
  }

  lemma PutAwayCaller(s: State)
    requires CanHandle(s) && Me(s).status != Active && Me(s).status != Exited
    ensures s.running in Handler(s).threads && Handler(s).threads[s.running] == Me(s)
  {
    hide Handler, Dispatch, NextCounters;
    DispatchThreads(s);
  }

  lemma ExitCaller(s: State)
    requires Inv(s) && Wellformed(s) && Possible(s, Exit)
    ensures s.running in Next(s, Exit).threads && Next(s, Exit).threads[s.running] == Me(s).(status := Exited)
  {
    hide Queues, Locks, Handler, Dispatch, NextCounters;
    ExitWaiter(s);
    DispatchThreads(Exiting(s));
  }

  lemma UnlockCaller(s: State, m: MutexPtr)
    requires Inv(s) && Wellformed(s) && Possible(s, Unlock(m))
    ensures s.running in Next(s, Unlock(m)).threads && Next(s, Unlock(m)).threads[s.running] == Me(s)
  {
    hide Queues, Joins, Ids, Enqueue;
    if s.mutexes[m].queue != [] {
      FirstWaiter(s, m);
    }
  }

  // ---------------------------------------------------------------- ids, joiners and registered mutexes

  /** What a step does to the tables of threads, joiners and free ids, to `done` and to the list of mutexes. */
  lemma BooksChange(s: State, step: Step)
    requires Inv(s) && Wellformed(s) && Possible(s, step)
    ensures var s' := Next(s, step);
            match step
            case Create(p) =>
              var id := if s.freeIds == [] then s.count else s.freeIds[0];
              && s'.threads == s.threads[p := Thread(id, 0, 0, -1, Active, User)]
              && s'.table == s.table[id := p] && s'.waiting == s.waiting - {id} && s'.done == s.done - {id}
              && s'.count == (if s.freeIds == [] then s.count + 1 else s.count)
              && s'.freeIds == (if s.freeIds == [] then [] else s.freeIds[1..]) && s'.registered == s.registered
            case Exit =>
              && s'.done == s.done + {s.threads[s.running].id} && s'.table == s.table && s'.waiting == s.waiting
              && s'.count == s.count && s'.freeIds == s.freeIds && s'.registered == s.registered
            case Join(t) =>
              var id := s.threads[t].id;
              && s'.done == s.done && s'.count == s.count && s'.registered == s.registered
              && (if JoinCode(s, t) == OK && id in s.done then
                    s'.table == s.table - {id} && s'.waiting == s.waiting - {id} && s'.freeIds == [id] + s.freeIds
                  else
                    && s'.table == s.table && s'.freeIds == s.freeIds
                    && s'.waiting == if JoinCode(s, t) == OK then s.waiting[id := s.running] else s.waiting)
            case DoReap =>
              var id := s.threads[s.running].waitId;
              && s'.table == s.table - {id} && s'.waiting == s.waiting - {id} && s'.freeIds == [id] + s.freeIds
              && s'.done == s.done && s'.count == s.count && s'.registered == s.registered
            case _ =>
              && s'.table == s.table && s'.waiting == s.waiting && s'.done == s.done && s'.count == s.count && s'.freeIds == s.freeIds
              && s'.registered == (if step.MutexInit? && step.m !in s.registered && |s.registered| < 1000
                                   then s.registered + [step.m] else s.registered)
  {
    hide Queues, Locks, Ids, Handler, Drain, Enqueue;
    match step
    case Tick => HandlerBooks(s);
    case YieldCall => HandlerBooks(Yielding(s));
    case Exit => HandlerBooks(Exiting(s));
    case Join(t) =>
      if JoinCode(s, t).OK? && s.threads[t].id !in s.done { HandlerBooks(Joining(s, s.threads[t].id)); }
    case Lock(m) =>
      if LockBlocks(s, m) { HandlerBooks(Blocking(s, m)); }
    case Destroy(m) =>
      if s.mutexes[m].user == None { DestroyedKeeps(s, m); }
    case _ =>
  }

  lemma HandlerBooks(s: State)
    requires CanHandle(s)
    ensures var h := Handler(s);
            && h.table == s.table && h.waiting == s.waiting && h.done == s.done && h.count == s.count && h.freeIds == s.freeIds
            && h.registered == s.registered
  {
    hide FirstLevel, SomeReady, Requeue;
    RequeueBooks(s);
  }

  lemma RequeueBooks(s: State)
    requires Wellformed(s)
    ensures var h := Requeue(s);
            && h.table == s.table && h.waiting == s.waiting && h.done == s.done && h.count == s.count && h.freeIds == s.freeIds
            && h.registered == s.registered && |h.ready| == 5 && h.level == s.level
  {
  }

  /** Over every run a mutex in the list stays in it, so that destroying it, unlocked, succeeds, and initialising it again
      reports EBUSY. */
  lemma {:induction false} RegisteredStays(states: seq<State>, steps: seq<Step>, m: MutexPtr, n: nat)
    requires IsRun(states, steps) && Inv(states[0]) && n <= |steps| && m in states[0].registered
    ensures m in states[n].registered
  {
    hide Inv, Possible, Orderly, Wellformed, Next;
    if n > 0 {
      RegisteredStays(states, steps, m, n - 1);
      EveryRunKeeps(states, steps, n - 1);
      BooksRegistered(states[n - 1], steps[n - 1]);
    }
  }

  /** A mutex that is initialised while the list has room can be destroyed at any later time when it is unlocked: the call
      is not refused. */
  lemma DestroyFindsMutex(states: seq<State>, steps: seq<Step>, m: MutexPtr, n: nat)
    requires IsRun(states, steps) && Inv(states[0]) && 0 < n <= |steps| && steps[0] == MutexInit(m) && |states[0].registered| < 1000
    requires Wellformed(states[n]) && Possible(states[n], Destroy(m)) && states[n].mutexes[m].user == None
    ensures var s := states[n];
            m in s.registered && Next(s, Destroy(m)) == s.(mutexes := s.mutexes[m := Mutex(None, [], false)])
  {
    hide Inv, Possible, Orderly, Wellformed, Next;
    EveryRunKeeps(states, steps, 1);
    EveryRunKeeps(states, steps, n);
    BooksRegistered(states[0], steps[0]);
    RegisteredStays(states[1..], steps[1..], m, n - 1);
    Destroys(states[n], m);
  }

  lemma Destroys(s: State, m: MutexPtr)
    requires Inv(s) && Wellformed(s) && Possible(s, Destroy(m)) && m in s.registered && s.mutexes[m].user == None
    ensures Next(s, Destroy(m)) == s.(mutexes := s.mutexes[m := Mutex(None, [], false)])
  {
    hide Inv;
    DestroyedKeeps(s, m);
  }

  lemma BooksRegistered(s: State, step: Step)
    requires Inv(s) && Wellformed(s) && Enabled(s, step)
    ensures forall m :: m in s.registered ==> m in Next(s, step).registered
    ensures step.MutexInit? && |s.registered| < 1000 ==> step.m in Next(s, step).registered
  {
    hide Inv, Next;
    BooksChange(s, step);
  }

  // ---------------------------------------------------------------- the processor and the ready queues

  /** Calls that do not raise the alarm leave the processor, the level and the ready queues alone, but that a new thread is
      last in queue 0, whatever the level, and a thread that is handed a mutex is last in the queue of its priority. */
  lemma QuietReady(s: State, step: Step)
    requires Inv(s) && Wellformed(s) && Possible(s, step)
    requires !step.Tick? && !step.YieldCall? && !step.Exit?
    requires step.Join? ==> JoinCode(s, step.t) != OK || s.threads[step.t].id in s.done
    requires step.Lock? ==> s.mutexes[step.m].user == None || s.mutexes[step.m].user == Some(s.running)
    ensures var s' := Next(s, step);
            && s'.running == s.running && s'.level == s.level && s'.runAt == s.runAt
            && s'.ready ==
               if step.Create? then s.ready[0 := s.ready[0] + [step.p]]
               else if step.Unlock? && s.mutexes[step.m].user == Some(s.running) && s.mutexes[step.m].queue != [] then
                 var p := s.mutexes[step.m].queue[0]; s.ready[s.threads[p].priority := s.ready[s.threads[p].priority] + [p]]
               else s.ready
  {
    hide Queues, Joins, Ids, Handler, Drain;
    match step
    case Destroy(m) =>
      if s.mutexes[m].user == None { DestroyedKeeps(s, m); }
    case _ =>
  }

  /** The ready queues once the running thread was put away: at the back of its next level, at the back of its own level, or
      nowhere; or its joiner, woken, at the back of the joiner's level. */
  lemma PutAwayReady(s: State)
    requires Wellformed(s)
    ensures var t := Me(s);
            Requeue(s).ready ==
              match t.status
              case Active => var l := (t.priority + 1) % 5; s.ready[l := s.ready[l] + [s.running]]
              case Yield => s.ready[t.priority := s.ready[t.priority] + [s.running]]
              case WaitThread => s.ready
              case WaitMutex => s.ready
              case Exited =>
                if t.id in s.waiting then
                  var w := s.waiting[t.id]; var l := s.threads[w].priority; s.ready[l := s.ready[l] + [w]]
                else s.ready
  {
  }

  /** The handler lets an active thread with intervals left go on; else it dispatches the front of the first non-empty queue
      above the present level, d steps up, cyclically. */
  lemma HandlerDispatches(s: State) returns (d: int)
    requires CanHandle(s) && s.runAt == 0
    ensures var s', r := Handler(s), Requeue(s).ready;
            if Me(s).status == Active && Me(s).intervals < s.level then
              s'.running == s.running && s'.level == s.level && s'.ready == s.ready && s'.runAt == 0
            else
              && 1 <= d <= 5 && |r| == 5 && var l := (s.level + d) % 5;
              && r[l] != [] && s'.running == r[l][0] && s'.level == l && s'.ready == r[l := r[l][1..]] && s'.runAt == 0
              && forall j :: 0 < j < d ==> Lower(r, s.level, j) == []
  {
    hide Requeue, SomeReady, FirstLevel;
    d := 1;
    if !Continues(s) {
      d := DispatchSteps(s);
    }
  }

  /** The queue j levels up, cyclically. */
  function Lower(ready: seq<seq<Ptr>>, l: int, j: int): seq<Ptr> {
    if |ready| == 5 then ready[(l + j) % 5] else []
  }

  lemma DispatchSteps(s: State) returns (d: int)
    requires CanHandle(s) && !Continues(s) && s.runAt == 0
    ensures var r := Requeue(s);
            && |r.ready| == 5 && r.level == s.level && r.runAt == 0 && SomeReady(r.ready)
            && 1 <= d <= 5 && FirstLevel(r.ready, (s.level + 1) % 5) == (s.level + d) % 5
            && forall j :: 0 < j < d ==> Lower(r.ready, s.level, j) == []
  {
    hide Requeue, SomeReady;
    RequeueParts(s);
    var ready, l := Requeue(s).ready, s.level;
    d := if ready[(l + 1) % 5] != [] then 1 else if ready[(l + 2) % 5] != [] then 2
         else if ready[(l + 3) % 5] != [] then 3 else if ready[(l + 4) % 5] != [] then 4 else 5;
    Around(l);
    assert Lower(ready, l, 1) == ready[(l + 1) % 5] && Lower(ready, l, 2) == ready[(l + 2) % 5];
    assert Lower(ready, l, 3) == ready[(l + 3) % 5] && Lower(ready, l, 4) == ready[(l + 4) % 5];
  }

  lemma RequeueParts(s: State)
    requires Wellformed(s)
    ensures var r := Requeue(s); |r.ready| == 5 && r.level == s.level && r.runAt == s.runAt
  {
  }

  lemma Around(l: int)
    requires 0 <= l < 5
    ensures ((l + 1) % 5 + 1) % 5 == (l + 2) % 5 && ((l + 1) % 5 + 2) % 5 == (l + 3) % 5
    ensures ((l + 1) % 5 + 3) % 5 == (l + 4) % 5 && ((l + 1) % 5 + 4) % 5 == (l + 5) % 5
  {
  }

  // ---------------------------------------------------------------- destroying a mutex

  /** The threads of q with priority l, in order. */
  function OfPriority(threads: map<Ptr, Thread>, q: seq<Ptr>, l: int): seq<Ptr> {
    if q == [] then []
    else (if q[0] in threads && threads[q[0]].priority == l then [q[0]] else []) + OfPriority(threads, q[1..], l)
  }

  lemma {:induction false} SamePriorities(threads: map<Ptr, Thread>, threads': map<Ptr, Thread>, q: seq<Ptr>, l: int)
    requires threads'.Keys == threads.Keys && forall p :: p in threads ==> threads'[p].priority == threads[p].priority
    ensures OfPriority(threads', q, l) == OfPriority(threads, q, l)
  {
    if q != [] {
      SamePriorities(threads, threads', q[1..], l);
    }
  }

  /** The drain loop makes exactly the waiters active, and appends each, in order, to the queue of its priority. */
  lemma {:induction false} DrainMoves(s: State, q: seq<Ptr>, l: int)
    requires |s.ready| == 5 && forall i :: 0 <= i < |q| ==> q[i] in s.threads && 0 <= s.threads[q[i]].priority < 5
    requires 0 <= l < 5
    ensures var s' := Drain(s, q);
            && |s'.ready| == 5 && s'.ready[l] == s.ready[l] + OfPriority(s.threads, q, l)
            && s'.threads.Keys == s.threads.Keys
            && (forall p :: p in s.threads ==>
                  s'.threads[p] == s.threads[p].(status := if p in q then Active else s.threads[p].status))
            && s' == s.(threads := s'.threads, ready := s'.ready)
    decreases |q|
  {
    hide Enqueue, Drain, OfPriority;
    DrainOnce(s, q, l);
    if q != [] {
      var s1 := DrainedOne(s, q[0]);
      DrainMoves(s1, q[1..], l);
      SamePriorities(s.threads, s1.threads, q[1..], l);
      assert q == [q[0]] + q[1..];
    }
  }

  function DrainedOne(s: State, p: Ptr): State
    requires |s.ready| == 5 && p in s.threads && 0 <= s.threads[p].priority < 5
  {
    var l := s.threads[p].priority;
    s.(threads := s.threads[p := s.threads[p].(status := Active)], ready := s.ready[l := s.ready[l] + [p]])
  }

  lemma DrainOnce(s: State, q: seq<Ptr>, l: int)
    requires |s.ready| == 5 && forall i :: 0 <= i < |q| ==> q[i] in s.threads && 0 <= s.threads[q[i]].priority < 5
    ensures q == [] ==> Drain(s, q) == s && OfPriority(s.threads, q, l) == []
    ensures q != [] ==>
              var s1 := DrainedOne(s, q[0]);
              && (forall i :: 0 <= i < |q[1..]| ==> q[1..][i] in s1.threads && 0 <= s1.threads[q[1..][i]].priority < 5)
              && Drain(s, q) == Drain(s1, q[1..])
              && OfPriority(s.threads, q, l) == (if s.threads[q[0]].priority == l then [q[0]] else []) + OfPriority(s.threads, q[1..], l)
  {
  }
}
