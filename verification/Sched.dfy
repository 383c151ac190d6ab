/** The user-level thread scheduler as a state machine: every API call is split at raise(SIGVTALRM), and the alarm may
    come between any two steps (asst1/my_pthread.c). */
module Sched {

  /** A my_pthread_t object; every my_pthread_create call is given a fresh one. */
  type Ptr = nat

  /** A my_pthread_mutex_t object. */
  type MutexPtr = nat

  datatype Option<T> = None | Some(value: T)

  datatype Status = Active | Yield | WaitThread | WaitMutex | Exited

  /** Where a thread continues when it is dispatched again. */
  datatype Pending =
    | User                   // in its own code
    | Claim(m: MutexPtr)     // my_pthread_mutex_lock after raise (line 477)
    | Reap(id: int)          // my_pthread_join after raise (line 393)

  datatype Thread = Thread(id: int, priority: int, intervals: int, waitId: int, status: Status, pending: Pending)

  datatype Mutex = Mutex(user: Option<Ptr>, queue: seq<Ptr>, live: bool)

  /** The globals of my_pthread.c. `holds` is history: who returned from a successful lock call and has not unlocked. */
  datatype State = State(
    threads: map<Ptr, Thread>,
    main: Ptr,
    ready: seq<seq<Ptr>>,            // priority_level
    running: Ptr,
    level: int,                      // current_priority
    runAt: int,                      // run_at_priority
    count: int,                      // thread_count
    freeIds: seq<int>,               // tid_list
    table: map<int, Ptr>,            // thread_table, non-NULL entries
    waiting: map<int, Ptr>,          // waiting, non-NULL entries
    done: set<int>,
    mutexes: map<MutexPtr, Mutex>,
    registered: seq<MutexPtr>,       // mutex_list, non-NULL entries
    holds: set<(Ptr, MutexPtr)>)

  predicate Runnable(t: Thread) {
    t.status == Active || t.status == Yield
  }

  function Set(s: State, p: Ptr, t: Thread): State {
    s.(threads := s.threads[p := t])
  }

  /** enqueue on a ready queue */
  function Enqueue(ready: seq<seq<Ptr>>, l: int, p: Ptr): seq<seq<Ptr>>
    requires 0 <= l < |ready|
  {
    ready[l := ready[l] + [p]]
  }

  // ---------------------------------------------------------------- the alarm handler

  /** The running thread keeps the processor: it is active and its interval is not used up (line 222). */
  predicate Continues(s: State)
    requires s.running in s.threads
  {
    var t := s.threads[s.running];
    t.status == Active && t.intervals < s.level
  }

  /** The switch of the handler, for a thread that gives up the processor (219-252). */
  function Requeue(s: State): State
    requires s.running in s.threads && |s.ready| == 5
    requires 0 <= s.threads[s.running].priority < 5
    requires forall id :: id in s.waiting ==> s.waiting[id] in s.threads && 0 <= s.threads[s.waiting[id]].priority < 5
  {
    var t := s.threads[s.running];
    match t.status
    case Active =>
      var q := (t.priority + 1) % 5;
      Set(s, s.running, t.(intervals := 0, priority := q)).(ready := Enqueue(s.ready, q, s.running))
    case Yield => s.(ready := Enqueue(s.ready, t.priority, s.running))
    case WaitMutex => s
    case WaitThread => s
    case Exited =>
      if t.id in s.waiting then
        var w := s.waiting[t.id];
        Set(s, w, s.threads[w].(status := Active)).(ready := Enqueue(s.ready, s.threads[w].priority, w))
      else s
  }

  /** The update of the priority counters (255-258). */
  function NextCounters(s: State): State {
    if s.runAt < 5 - s.level then s.(level := (s.level + 1) % 5, runAt := 0) else s.(runAt := s.runAt + 1)
  }

  predicate SomeReady(ready: seq<seq<Ptr>>) {
    exists l :: 0 <= l < |ready| && ready[l] != []
  }

  /** The first non-empty level at or after l, cyclically (263-267). */
  function FirstLevel(ready: seq<seq<Ptr>>, l: int): (r: int)
    requires |ready| == 5 && 0 <= l < 5 && SomeReady(ready)
    ensures 0 <= r < 5 && ready[r] != []
  {
    if ready[l] != [] then l
    else if ready[(l + 1) % 5] != [] then (l + 1) % 5
    else if ready[(l + 2) % 5] != [] then (l + 2) % 5
    else if ready[(l + 3) % 5] != [] then (l + 3) % 5
    else (l + 4) % 5
  }

  /** The search passes over empty levels only. */
  lemma FirstLevelIsFirst(ready: seq<seq<Ptr>>, l: int, j: int)
    requires |ready| == 5 && 0 <= l < 5 && SomeReady(ready) && 0 <= j < (FirstLevel(ready, l) - l + 5) % 5
    ensures ready[(l + j) % 5] == []
  {
    var f := FirstLevel(ready, l);
    assert f == l || f == (l + 1) % 5 || f == (l + 2) % 5 || f == (l + 3) % 5 || f == (l + 4) % 5;
  }

  function Dispatch(s: State): State
    requires |s.ready| == 5 && 0 <= s.level < 5 && SomeReady(s.ready)
  {
    var l := FirstLevel(s.ready, s.level);
    s.(level := l, running := s.ready[l][0], ready := s.ready[l := s.ready[l][1..]])
  }

  predicate Wellformed(s: State) {
    && s.running in s.threads && |s.ready| == 5 && 0 <= s.level < 5
    && (forall p :: p in s.threads ==> 0 <= s.threads[p].priority < 5)
    && (forall id :: id in s.waiting ==> s.waiting[id] in s.threads)
  }

  /** scheduler_alarm_handler. The source needs a ready thread once the running one is put away: with none its search
      does not end. */
  function Handler(s: State): State
    requires Wellformed(s)
    requires !Continues(s) ==> SomeReady(Requeue(s).ready)
  {
    if Continues(s) then
      var t := s.threads[s.running];
      Set(s, s.running, t.(intervals := t.intervals + 1))
    else
      Dispatch(NextCounters(Requeue(s)))
  }

  // ---------------------------------------------------------------- the API calls

  datatype Step =
    | Tick                       // the timer
    | Create(p: Ptr)
    | YieldCall
    | Exit
    | Join(t: Ptr)
    | DoReap                     // the second half of a join that waited
    | MutexInit(m: MutexPtr)
    | Lock(m: MutexPtr)
    | DoClaim                    // the second half of a lock that waited
    | Unlock(m: MutexPtr)
    | Destroy(m: MutexPtr)

  datatype Code = OK | EDEADLK | EINVAL | ESRCH | EPERM | EBUSY

  function Me(s: State): Thread
    requires s.running in s.threads
  {
    s.threads[s.running]
  }

  // my_pthread_create: get_ID takes a recycled id first.

  function NewId(s: State): int {
    if s.freeIds == [] then s.count else s.freeIds[0]
  }

  function Created(s: State, p: Ptr): State
    requires |s.ready| == 5
  {
    var id := NewId(s);
    s.(threads := s.threads[p := Thread(id, 0, 0, -1, Active, User)],
       count := if s.freeIds == [] then s.count + 1 else s.count,
       freeIds := if s.freeIds == [] then [] else s.freeIds[1..],
       table := s.table[id := p],
       waiting := s.waiting - {id},
       done := s.done - {id},
       ready := Enqueue(s.ready, 0, p))
  }

  function Yielding(s: State): State
    requires s.running in s.threads
  {
    Set(s, s.running, Me(s).(status := Yield))
  }

  function Exiting(s: State): State
    requires s.running in s.threads
  {
    Set(s, s.running, Me(s).(status := Exited)).(done := s.done + {Me(s).id})
  }

  /** The checks of my_pthread_join (360-380); OK means that the call goes on. */
  function JoinCode(s: State, t: Ptr): Code
    requires s.running in s.threads && t in s.threads
    requires forall id :: id in s.waiting ==> s.waiting[id] in s.threads
  {
    if Me(s).id == s.threads[t].id then EDEADLK
    else if s.threads[t].waitId == Me(s).id then EDEADLK
    else if exists id :: id in s.waiting && s.threads[s.waiting[id]].waitId == Me(s).id then EINVAL
    else if s.threads[t].id !in s.table then ESRCH
    else OK
  }

  function Joining(s: State, id: int): State
    requires s.running in s.threads
  {
    Set(s, s.running, Me(s).(status := WaitThread, waitId := id, pending := Reap(id))).(waiting := s.waiting[id := s.running])
  }

  /** The clean-up of my_pthread_join (400-404). */
  function Reaped(s: State, id: int): State
    requires s.running in s.threads
  {
    Set(s, s.running, Me(s).(pending := User)).
      (waiting := s.waiting - {id}, table := s.table - {id}, freeIds := [id] + s.freeIds)
  }

  /** my_pthread_mutex_init: the queue is replaced even when the call then reports EBUSY (417-430). */
  function Initialized(s: State, m: MutexPtr): State {
    if m in s.registered then
      s.(mutexes := s.mutexes[m := (if m in s.mutexes then s.mutexes[m] else Mutex(None, [], true)).(queue := [], live := true)])
    else
      s.(mutexes := s.mutexes[m := Mutex(None, [], true)],
         registered := if |s.registered| < 1000 then s.registered + [m] else s.registered)
  }

  predicate Live(s: State, m: MutexPtr) {
    m in s.mutexes && s.mutexes[m].live
  }

  function Blocking(s: State, m: MutexPtr): State
    requires s.running in s.threads && m in s.mutexes
  {
    Set(s, s.running, Me(s).(status := WaitMutex, pending := Claim(m))).
      (mutexes := s.mutexes[m := s.mutexes[m].(queue := s.mutexes[m].queue + [s.running])])
  }

  /** `mutex->user = running_thread` (478) */
  function Claimed(s: State, m: MutexPtr): State
    requires s.running in s.threads && m in s.mutexes
  {
    Set(s, s.running, Me(s).(pending := User)).
      (mutexes := s.mutexes[m := s.mutexes[m].(user := Some(s.running))], holds := s.holds + {(s.running, m)})
  }

  /** The handoff of my_pthread_mutex_unlock (497-502). */
  function Unlocked(s: State, m: MutexPtr): State
    requires m in s.mutexes && |s.ready| == 5
    requires forall i :: 0 <= i < |s.mutexes[m].queue| ==>
               s.mutexes[m].queue[i] in s.threads && 0 <= s.threads[s.mutexes[m].queue[i]].priority < 5
  {
    var q := s.mutexes[m].queue;
    var s' := s.(holds := s.holds - {(s.running, m)});
    if q == [] then s'.(mutexes := s.mutexes[m := s.mutexes[m].(user := None)])
    else
      Set(s', q[0], s.threads[q[0]].(status := Active)).
        (mutexes := s.mutexes[m := s.mutexes[m].(user := Some(q[0]), queue := q[1..])],
         ready := Enqueue(s.ready, s.threads[q[0]].priority, q[0]))
  }

  /** my_pthread_mutex_destroy: waiters, if any, become ready; the mutex stays in mutex_list (525 compares). */
  function Drain(s: State, q: seq<Ptr>): State
    requires |s.ready| == 5
    requires forall i :: 0 <= i < |q| ==> q[i] in s.threads && 0 <= s.threads[q[i]].priority < 5
    decreases |q|
  {
    if q == [] then s
    else
      var s1 := Set(s, q[0], s.threads[q[0]].(status := Active)).(ready := Enqueue(s.ready, s.threads[q[0]].priority, q[0]));
      Drain(s1, q[1..])
  }

  function Destroyed(s: State, m: MutexPtr): State
    requires m in s.mutexes && |s.ready| == 5
    requires forall i :: 0 <= i < |s.mutexes[m].queue| ==>
               s.mutexes[m].queue[i] in s.threads && 0 <= s.threads[s.mutexes[m].queue[i]].priority < 5
  {
    var s' := Drain(s, s.mutexes[m].queue);
    s'.(mutexes := s'.mutexes[m := Mutex(None, [], false)])
  }

  /** scheduler_init. The wait_id of the main thread is not initialised. */
  function Init(main: Ptr, junk: int): State {
    State(map[main := Thread(0, 0, 0, junk, Active, User)], main, [[], [], [], [], []], main, 0, 0, 1, [], map[], map[], {},
          map[], [], {})
  }
}
