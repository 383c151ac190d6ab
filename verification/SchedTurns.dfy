/** How long a turn lasts and where a thread goes afterwards, and what becomes of `yield` and `wait_id`, which the source sets
    and never resets (asst1/my_pthread.c:214-274, 334-390). */
module SchedTurns {
  import opened Sched
  import opened SchedInv
  import opened SchedRuns
  import opened SchedJoin

  // ---------------------------------------------------------------- turns

  predicate AllTicks(steps: seq<Step>, n: nat) {
    n <= |steps| && forall i :: 0 <= i < n ==> steps[i] == Tick
  }

  /** An active thread at the start of a turn at level c keeps the processor for the first c ticks. */
  lemma {:induction false} TurnLasts(states: seq<State>, steps: seq<Step>, n: nat)
    requires IsRun(states, steps) && Inv(states[0]) && AllTicks(steps, n)
    requires Me(states[0]).status == Active && Me(states[0]).intervals == 0 && n <= states[0].level
    ensures states[n] == Set(states[0], states[0].running, Me(states[0]).(intervals := n))
  {
    hide Inv, Requeue, Dispatch, NextCounters;
    var s := states[0];
    InvWellformed(s);
    if n == 0 {
      assert s.threads[s.running := Me(s)] == s.threads;
    } else {
      TurnLasts(states, steps, n - 1);
      assert states[n] == Next(states[n - 1], steps[n - 1]);
      assert states[n].threads == s.threads[s.running := Me(s).(intervals := n)];
    }
  }

  /** The state after a full turn: the thread is at the back of the next level, and that level is served next. */
  function TurnedOver(s: State): State
    requires s.running in s.threads && |s.ready| == 5 && 0 <= s.level < 5
  {
    var l := (s.level + 1) % 5;
    var q := s.ready[l] + [s.running];
    Set(s, s.running, Me(s).(intervals := 0, priority := l)).(level := l, running := q[0], ready := s.ready[l := q[1..]])
  }

  lemma LastTick(s: State)
    requires Inv(s) && CanHandle(s) && Me(s).status == Active && Me(s).intervals == s.level
    ensures Handler(s) == TurnedOver(s)
  {
    hide Locks, Joins, Ids;
    var l := (s.level + 1) % 5;
    var r := Requeue(s);
    assert r.ready == s.ready[l := s.ready[l] + [s.running]] && r.ready[l] != [];
    assert FirstLevel(r.ready, l) == l;
    assert r.ready[l := r.ready[l][1..]] == s.ready[l := (s.ready[l] + [s.running])[1..]];
  }

  /** A turn at level c ends with tick c + 1, however many threads there are. */
  lemma TurnEnds(states: seq<State>, steps: seq<Step>)
    requires IsRun(states, steps) && Inv(states[0]) && 0 <= states[0].level && AllTicks(steps, states[0].level + 1)
    requires Me(states[0]).status == Active && Me(states[0]).intervals == 0
    ensures Wellformed(states[0])
    ensures var s, s' := states[0], states[states[0].level + 1];
            var l := (s.level + 1) % 5;
            var q := s.ready[l] + [s.running];
            && s'.threads == s.threads[s.running := s.threads[s.running].(intervals := 0, priority := l)]
            && s'.level == l && s'.running == q[0] && s'.ready == s.ready[l := q[1..]]
  {
    hide Inv, Next;
    var s, c := states[0], states[0].level;
    TurnLasts(states, steps, c);
    EveryRunKeeps(states, steps, c);
    InvWellformed(s);
    TickHandles(states[c]);
    LastTick(states[c]);
    SameTurn(s, c);
  }

  lemma TickHandles(s: State)
    requires Inv(s) && Wellformed(s) && Enabled(s, Tick)
    ensures CanHandle(s) && Next(s, Tick) == Handler(s)
  {
  }

  lemma SameTurn(s: State, n: int)
    requires s.running in s.threads && |s.ready| == 5 && 0 <= s.level < 5
    ensures TurnedOver(Set(s, s.running, Me(s).(intervals := n))) == TurnedOver(s)
  {
  }

  // ---------------------------------------------------------------- yield is never reset

  /** The steps with which the running thread stops being runnable. */
  predicate Stops(s: State, step: Step)
    requires Wellformed(s) && Enabled(s, step)
  {
    || step == Exit
    || (step.Join? && JoinCode(s, step.t).OK? && s.threads[step.t].id !in s.done)
    || (step.Lock? && LockBlocks(s, step.m))
  }

  /** A thread that yielded once stays marked so until it blocks or exits, whatever any thread does; so no turn of it lasts
      longer than one tick, and it never moves to another level. */
  lemma YieldSticks(s: State, step: Step, t: Ptr)
    requires Inv(s) && Wellformed(s) && Enabled(s, step) && t in s.threads && s.threads[t].status == Yield
    requires t == s.running ==> !Stops(s, step)
    ensures var s' := Next(s, step);
            && t in s'.threads && s'.threads[t].status == Yield
            && s'.threads[t].priority == s.threads[t].priority && s'.threads[t].intervals == s.threads[t].intervals
  {
    hide Queues, Waiters, Owners, Joins, Dispatch, Requeue, Handler, Enqueue, JoinCode;
    RunnableRunning(s);
    match step
    case Tick => YieldHandled(s, t);
    case YieldCall => YieldHandled(Yielding(s), t);
    case Exit => YieldSticksExit(s, t);
    case Join(u) => YieldSticksJoin(s, u, t);
    case Lock(m) =>
      if LockBlocks(s, m) { YieldHandled(Blocking(s, m), t); }
    case Unlock(m) => YieldSticksUnlock(s, m, t);
    case Destroy(m) =>
      if s.mutexes[m].user == None { DestroyedKeeps(s, m); }
    case _ =>
  }

  lemma YieldSticksUnlock(s: State, m: MutexPtr, t: Ptr)
    requires Inv(s) && Wellformed(s) && Enabled(s, Unlock(m)) && t in s.threads && s.threads[t].status == Yield
    ensures t in Next(s, Unlock(m)).threads && Next(s, Unlock(m)).threads[t] == s.threads[t]
  {
    hide Inv, Enqueue;
    if s.mutexes[m].queue != [] {
      FirstWaiter(s, m);
    }
  }

  lemma YieldSticksExit(s: State, t: Ptr)
    requires Inv(s) && Wellformed(s) && Enabled(s, Exit) && t in s.threads && s.threads[t].status == Yield && t != s.running
    ensures t in Next(s, Exit).threads && Next(s, Exit).threads[t] == s.threads[t]
  {
    hide Queues, Waiters, Owners, Ids, Dispatch, Requeue, Handler, Enqueue;
    ExitWaiter(s);
    YieldHandled(Exiting(s), t);
  }

  lemma YieldSticksJoin(s: State, u: Ptr, t: Ptr)
    requires Inv(s) && Wellformed(s) && Enabled(s, Join(u)) && t in s.threads && s.threads[t].status == Yield
    requires t == s.running ==> !Stops(s, Join(u))
    ensures var s' := Next(s, Join(u));
            && t in s'.threads && s'.threads[t].status == Yield
            && s'.threads[t].priority == s.threads[t].priority && s'.threads[t].intervals == s.threads[t].intervals
  {
    hide Inv, Dispatch, Requeue, Handler, Enqueue;
    if JoinCode(s, u).OK? && s.threads[u].id !in s.done {
      YieldHandled(Joining(s, s.threads[u].id), t);
    }
  }

  lemma YieldHandled(s: State, t: Ptr)
    requires CanHandle(s) && t in s.threads && s.threads[t].status == Yield && !Wakes(s, t)
    ensures t in Handler(s).threads && Handler(s).threads[t] == s.threads[t]
  {
    hide Requeue, Dispatch, NextCounters;
    if !Continues(s) {
      YieldPutAway(s, t);
      DispatchThreads(s);
    }
  }

  lemma YieldPutAway(s: State, t: Ptr)
    requires Wellformed(s) && t in s.threads && s.threads[t].status == Yield && !Wakes(s, t)
    ensures t in Requeue(s).threads && Requeue(s).threads[t] == s.threads[t]
  {
  }

  // ---------------------------------------------------------------- wait_id is never reset

  /** Joining a thread whose wait_id is the caller's id is refused as a deadlock; it is one exactly if that thread is
      blocked in a join now. */
  lemma DeadlockReportIsTrueIff(s: State, t: Ptr)
    requires Inv(s) && Wellformed(s) && t in s.threads && s.threads[t].waitId == Me(s).id
    ensures JoinCode(s, t) == EDEADLK
    ensures WaitsFor(s, t, s.running) <==> s.threads[t].status == WaitThread
  {
    hide Queues, Locks;
    RunnableRunning(s);
  }
}
