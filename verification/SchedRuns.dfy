/** What holds in every reachable state and over whole runs of the scheduler (asst1/my_pthread.c). */
module SchedRuns {
  import opened Sched
  import opened SchedInv

  /** A run from any state; the timer may tick at any point of it. */
  ghost predicate IsRun(states: seq<State>, steps: seq<Step>) {
    && |states| == |steps| + 1
    && (forall i :: 0 <= i < |steps| ==>
          Wellformed(states[i]) && Enabled(states[i], steps[i]) && states[i + 1] == Next(states[i], steps[i]))
  }

  /** The invariant holds in every state of every run from scheduler_init. */
  lemma {:induction false} EveryRunKeeps(states: seq<State>, steps: seq<Step>, n: nat)
    requires IsRun(states, steps) && Inv(states[0]) && n <= |steps|
    ensures Inv(states[n])
  {
    hide Inv, Enabled, Wellformed, Next;
    if n > 0 {
      EveryRunKeeps(states, steps, n - 1);
      StepKeeps(states[n - 1], steps[n - 1]);
    }
  }

  lemma EveryRunFromInit(states: seq<State>, steps: seq<Step>, main: Ptr, junk: int, n: nat)
    requires IsRun(states, steps) && states[0] == Init(main, junk) && n <= |steps|
    ensures Inv(states[n])
  {
    InitInv(main, junk);
    EveryRunKeeps(states, steps, n);
  }

  // ---------------------------------------------------------------- every thread is in exactly one place

  datatype Place =
    | OnCpu
    | InReady(level: int, index: int)
    | InMutex(m: MutexPtr, index: int)
    | InJoin(id: int)
    | Gone

  ghost predicate At(s: State, p: Ptr, place: Place)
    requires p in s.threads
  {
    match place
    case OnCpu => s.running == p
    case InReady(l, i) => 0 <= l < |s.ready| && 0 <= i < |s.ready[l]| && s.ready[l][i] == p
    case InMutex(m, i) => m in s.mutexes && 0 <= i < |s.mutexes[m].queue| && s.mutexes[m].queue[i] == p
    case InJoin(id) => s.threads[p].status == WaitThread && id in s.waiting && s.waiting[id] == p
    case Gone => s.threads[p].status == Exited
  }

  /** The status of a thread agrees with where it is; a ready thread is in the queue of its priority. */
  lemma PlaceAgrees(s: State, p: Ptr, place: Place)
    requires Inv(s) && p in s.threads && At(s, p, place)
    ensures match place
            case OnCpu => Runnable(s.threads[p]) && s.threads[p].priority == s.level
            case InReady(l, i) => Runnable(s.threads[p]) && s.threads[p].priority == l && p != s.running
            case InMutex(m, i) => s.threads[p].status == WaitMutex && s.threads[p].pending == Claim(m) && s.mutexes[m].user.Some?
            case InJoin(id) => s.threads[p].status == WaitThread && id == s.threads[p].waitId && id in s.table && id !in s.done
            case Gone => s.threads[p].status == Exited
    ensures 0 <= s.threads[p].intervals <= s.threads[p].priority < 5
  {
    hide Ids;
  }

  /** In every reachable state each thread is running, in one slot of one ready queue, in one slot of one mutex queue,
      blocked in one join, or exited; and only one of these. */
  lemma ExactlyOnePlace(s: State, p: Ptr)
    requires Inv(s) && p in s.threads
    ensures exists place :: At(s, p, place)
    ensures forall a, b :: At(s, p, a) && At(s, p, b) ==> a == b
  {
    hide Queues, Locks, Joins, Ids;
    var place := FindPlace(s, p);
    forall a, b | At(s, p, a) && At(s, p, b)
      ensures a == b
    {
      SamePlace(s, p, a, b);
    }
  }

  lemma FindPlace(s: State, p: Ptr) returns (place: Place)
    requires Inv(s) && p in s.threads
    ensures At(s, p, place)
  {
    hide Ids;
    var t := s.threads[p];
    match t.status
    case Exited => place := Gone;
    case WaitThread => place := InJoin(t.waitId);
    case WaitMutex =>
      var i :| 0 <= i < |s.mutexes[t.pending.m].queue| && s.mutexes[t.pending.m].queue[i] == p;
      place := InMutex(t.pending.m, i);
    case _ =>
      if p == s.running {
        place := OnCpu;
      } else {
        var i :| 0 <= i < |s.ready[t.priority]| && s.ready[t.priority][i] == p;
        place := InReady(t.priority, i);
      }
  }

  lemma SamePlace(s: State, p: Ptr, a: Place, b: Place)
    requires Inv(s) && p in s.threads && At(s, p, a) && At(s, p, b)
    ensures a == b
  {
    PlaceAgrees(s, p, a);
    PlaceAgrees(s, p, b);
    hide Ids;
  }

  // ---------------------------------------------------------------- mutexes

  /** At most one thread holds a mutex, it is the owner, and it does not wait for it; a mutex with waiters is owned. */
  lemma MutualExclusion(s: State, m: MutexPtr, p: Ptr, q: Ptr)
    requires Inv(s) && (p, m) in s.holds
    ensures (q, m) in s.holds ==> p == q
    ensures m in s.mutexes && s.mutexes[m].user == Some(p) && p !in s.mutexes[m].queue
  {
    hide Queues, Joins, Ids;
  }

  /** The claim of a woken thread finds the mutex already its own: it overwrites nobody. */
  lemma ClaimOverwritesNobody(s: State)
    requires Inv(s) && Me(s).pending.Claim?
    ensures var m := Me(s).pending.m; m in s.mutexes && s.mutexes[m].user == Some(s.running)
  {
    hide Joins, Ids;
  }

  /** Threads that started to wait for m during the first n steps, in order. */
  ghost function Arrivals(states: seq<State>, steps: seq<Step>, m: MutexPtr, n: nat): seq<Ptr>
    requires IsRun(states, steps) && n <= |steps|
  {
    if n == 0 then [] else
      var s := states[n - 1];
      Arrivals(states, steps, m, n - 1) +
        (if steps[n - 1] == Lock(m) && LockBlocks(s, m) then [s.running] else [])
  }

  /** Threads to which an unlock handed m during the first n steps, in order. */
  ghost function Grants(states: seq<State>, steps: seq<Step>, m: MutexPtr, n: nat): seq<Ptr>
    requires IsRun(states, steps) && n <= |steps|
  {
    if n == 0 then [] else
      var s := states[n - 1];
      Grants(states, steps, m, n - 1) +
        (if steps[n - 1] == Unlock(m) && s.mutexes[m].user == Some(s.running) && s.mutexes[m].queue != []
         then [s.mutexes[m].queue[0]] else [])
  }

  ghost function QueueOf(s: State, m: MutexPtr): seq<Ptr> {
    if m in s.mutexes then s.mutexes[m].queue else []
  }

  ghost function OwnerOf(s: State, m: MutexPtr): Option<Ptr> {
    if m in s.mutexes then s.mutexes[m].user else None
  }

  /** How one step changes the queue and the owner of a mutex: only a blocking lock appends, only the owner's unlock
      removes, and it removes the head and makes it the owner; an owned mutex changes hands in no other way. */
  lemma StepQueue(s: State, step: Step, m: MutexPtr)
    requires Inv(s) && Wellformed(s) && Enabled(s, step)
    ensures step == Unlock(m) || step == Lock(m) ==> m in s.mutexes
    ensures var s' := Next(s, step); var q := QueueOf(s, m);
            QueueOf(s', m) ==
              if step == Lock(m) && LockBlocks(s, m) then q + [s.running]
              else if step == Unlock(m) && s.mutexes[m].user == Some(s.running) && q != [] then q[1..]
              else q
    ensures var s' := Next(s, step); var u := OwnerOf(s, m);
            OwnerOf(s', m) ==
              if step == Unlock(m) && u == Some(s.running) then (if QueueOf(s, m) == [] then None else Some(QueueOf(s, m)[0]))
              else if step == Lock(m) && u == None then Some(s.running)
              else u
  {
    hide Queues, Waiters, Joins, Ids, Requeue, Wellformed;
    StepMutexes(s, step);
    if step.DoClaim? { ClaimOverwritesNobody(s); }
    if step.Destroy? && s.mutexes[step.m].user == None { DestroyedKeeps(s, step.m); }
  }

  /** The handler does not touch the mutexes. */
  lemma HandlerMutexes(s: State)
    requires Wellformed(s) && (!Continues(s) ==> SomeReady(Requeue(s).ready))
    ensures Handler(s).mutexes == s.mutexes
  {
    hide Requeue, FirstLevel, SomeReady;
    RequeueMutexes(s);
  }

  lemma RequeueMutexes(s: State)
    requires Wellformed(s)
    ensures var r := Requeue(s); r.mutexes == s.mutexes && |r.ready| == 5 && r.level == s.level
  {
  }

  lemma StepMutexes(s: State, step: Step)
    requires Wellformed(s) && Enabled(s, step)
    ensures step.Tick? || step.YieldCall? || step.Exit? || step.Join? ==> Next(s, step).mutexes == s.mutexes
    ensures step.Lock? && LockBlocks(s, step.m) ==> Next(s, step).mutexes == Blocking(s, step.m).mutexes
  {
    hide Requeue, Dispatch;
    match step
    case Tick => HandlerMutexes(s);
    case YieldCall => HandlerMutexes(Yielding(s));
    case Exit => HandlerMutexes(Exiting(s));
    case Join(t) =>
      if JoinCode(s, t).OK? && s.threads[t].id !in s.done { HandlerMutexes(Joining(s, s.threads[t].id)); }
    case Lock(m) =>
      if LockBlocks(s, m) { HandlerMutexes(Blocking(s, m)); }
    case _ =>
  }

  /** Grants follow arrivals: over every run, whoever waited for a mutex is served first come first served. */
  lemma {:induction false} FirstComeFirstServed(states: seq<State>, steps: seq<Step>, m: MutexPtr, n: nat)
    requires IsRun(states, steps) && Inv(states[0]) && QueueOf(states[0], m) == [] && n <= |steps|
    ensures Arrivals(states, steps, m, n) == Grants(states, steps, m, n) + QueueOf(states[n], m)
  {
    hide Inv, Enabled, Wellformed, Next, LockBlocks;
    if n > 0 {
      FirstComeFirstServed(states, steps, m, n - 1);
      EveryRunKeeps(states, steps, n - 1);
      StepQueue(states[n - 1], steps[n - 1], m);
      Fifo(Grants(states, steps, m, n - 1), QueueOf(states[n - 1], m), states[n - 1].running);
    }
  }

  lemma Fifo(served: seq<Ptr>, q: seq<Ptr>, p: Ptr)
    ensures (served + q) + [p] == served + (q + [p])
    ensures q != [] ==> served + q == (served + [q[0]]) + q[1..]
  {
  }
}
