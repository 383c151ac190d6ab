/** The scheduler with its globals as fields that the calls update in place, over the linked queues
    (asst1/my_pthread.c). */
module Scheduler {
  import opened Sched
  import opened SchedInv
  import opened SchedRuns
  import opened QueueBank
  import opened SchedThreads

  /** my_pthread_mutex_t without its queue; `live` until it is destroyed. */
  datatype Cell = Cell(user: Option<Ptr>, live: bool)

  /** priority_level, as the queues hold it. */
  function ReadyOf(v: Lists): (r: seq<seq<Ptr>>)
    ensures |r| == 5 && forall l :: 0 <= l < 5 ==> r[l] == QueueAt(v, Level(l))
  {
    [QueueAt(v, Level(0)), QueueAt(v, Level(1)), QueueAt(v, Level(2)), QueueAt(v, Level(3)), QueueAt(v, Level(4))]
  }

  function MutexesOf(cells: map<MutexPtr, Cell>, v: Lists): (r: map<MutexPtr, Mutex>)
    ensures r.Keys == cells.Keys
    ensures forall m :: m in cells ==> r[m] == Mutex(cells[m].user, QueueAt(v, Wait(m)), cells[m].live)
  {
    map m | m in cells :: Mutex(cells[m].user, QueueAt(v, Wait(m)), cells[m].live)
  }

  /** Every level and every mutex has a queue. */
  predicate Keyed(cells: map<MutexPtr, Cell>, v: Lists) {
    (forall l :: 0 <= l < 5 ==> Level(l) in v) && (forall m :: m in cells ==> Wait(m) in v)
  }

  lemma KeyedAt(cells: map<MutexPtr, Cell>, v: Lists)
    requires Keyed(cells, v)
    ensures Level(0) in v && Level(1) in v && Level(2) in v && Level(3) in v && Level(4) in v
    ensures forall m :: m in cells ==> Wait(m) in v
  {
  }

  lemma WaitAt(cells: map<MutexPtr, Cell>, v: Lists, m: MutexPtr)
    requires Keyed(cells, v) && m in cells
    ensures Wait(m) in v && MutexesOf(cells, v)[m] == Mutex(cells[m].user, v[Wait(m)], cells[m].live)
  {
  }

  lemma Waiting(v: Lists, m: MutexPtr)
    ensures QueueAt(v, Wait(m)) == if Wait(m) in v then v[Wait(m)] else []
  {
  }

  lemma LevelChanged(cells: map<MutexPtr, Cell>, v: Lists, l: int, q: seq<Ptr>)
    requires 0 <= l < 5
    ensures ReadyOf(v[Level(l) := q]) == ReadyOf(v)[l := q] && MutexesOf(cells, v[Level(l) := q]) == MutexesOf(cells, v)
    ensures Keyed(cells, v) ==> Keyed(cells, v[Level(l) := q]) && Level(l) in v && ReadyOf(v)[l] == v[Level(l)]
  {
  }

  lemma WaitChanged(cells: map<MutexPtr, Cell>, v: Lists, m: MutexPtr, q: seq<Ptr>, c: Cell)
    ensures ReadyOf(v[Wait(m) := q]) == ReadyOf(v)
    ensures Keyed(cells, v) ==> Keyed(cells[m := c], v[Wait(m) := q])
    ensures m in cells && Keyed(cells, v) ==> Wait(m) in v && MutexesOf(cells, v)[m] == Mutex(cells[m].user, v[Wait(m)], cells[m].live)
    ensures MutexesOf(cells[m := c], v[Wait(m) := q]) == MutexesOf(cells, v)[m := Mutex(c.user, q, c.live)]
  {
  }

  lemma CellChanged(cells: map<MutexPtr, Cell>, v: Lists, m: MutexPtr, c: Cell)
    requires m in cells && Keyed(cells, v)
    ensures Wait(m) in v && Keyed(cells[m := c], v)
    ensures MutexesOf(cells[m := c], v) == MutexesOf(cells, v)[m := Mutex(c.user, v[Wait(m)], c.live)]
  {
  }

  /** The loop that makes the ready queues (136-138). */
  method MakeLevels(bank: Bank)
    requires bank.Valid() && bank.V() == map[]
    modifies bank, bank.Repr
    ensures bank.Valid() && bank.V() == Empties(5) && fresh(bank.Repr - old(bank.Repr))
  {
    hide Bank.Valid, Bank.V;
    for i := 0 to 5
      invariant bank.Valid() && bank.V() == Empties(i) && fresh(bank.Repr - old(bank.Repr))
    {
      bank.Make(Level(i));
      EmptiesStep(i);
    }
  }

  /** The loop that takes the next thread from the first non-empty level (262-267). */
  method Search(bank: Bank, from: int, ghost cells: map<MutexPtr, Cell>) returns (p: Ptr, level: int)
    requires bank.Valid() && Keyed(cells, bank.V()) && 0 <= from < 5 && SomeReady(ReadyOf(bank.V()))
    modifies bank, bank.Repr
    ensures bank.Valid() && bank.Repr == old(bank.Repr)
    ensures level == FirstLevel(ReadyOf(old(bank.V())), from)
    ensures TookFrom(old(bank.V()), ReadyOf(old(bank.V())), level, p, bank.V())
  {
    hide Bank.Valid, Bank.V, ReadyOf, MutexesOf, Keyed, QueueAt, FirstLevel, SomeReady, Distance;
    ghost var v := bank.V();
    ghost var ready := ReadyOf(v);
    level := from;
    Tried(cells, v, level);
    var next := bank.Take(Level(level));
    while next.None?
      invariant 0 <= level < 5 && bank.Valid() && bank.Repr == old(bank.Repr)
      invariant FirstLevel(ready, level) == FirstLevel(ready, from)
      invariant if next.None? then bank.V() == v && ready[level] == []
                else TookFrom(v, ready, level, next.value, bank.V()) && level == FirstLevel(ready, level)
      decreases next.None?, Distance(ready, level)
    {
      StepUp(ready, level);
      level := (level + 1) % 5;
      Tried(cells, v, level);
      next := bank.Take(Level(level));
    }
    p := next.value;
  }

  class Scheduler {
    var threads: map<Ptr, Thread>
    const main: Ptr
    const bank: Bank                        // priority_level and the queues of the mutexes
    var running: Ptr
    var level: int
    var runAt: int
    var count: int
    var freeIds: seq<int>
    var table: map<int, Ptr>
    var waiting: map<int, Ptr>
    var done: set<int>
    var cells: map<MutexPtr, Cell>
    var registered: seq<MutexPtr>
    ghost var holds: set<(Ptr, MutexPtr)>

    /** Every level and every mutex has its queue. */
    ghost predicate Valid()
      reads this, bank, bank.Repr
    {
      bank.Valid() && this !in bank.Repr && Keyed(cells, bank.V())
    }

    /** The state the fields and the linked queues stand for. */
    ghost function S(): State
      reads this, bank, bank.Repr
      requires bank.Valid()
    {
      State(threads, main, ReadyOf(bank.V()), running, level, runAt, count, freeIds, table, waiting, done,
            MutexesOf(cells, bank.V()), registered, holds)
    }

    /** The step may be taken. */
    ghost predicate Can(step: Step)
      reads this, bank, bank.Repr
    {
      Valid() && Inv(S()) && Wellformed(S()) && Possible(S(), step)
    }

    /** The step was taken: the linked queues and the other fields stand for the next state, in which the invariant holds
        if the caller kept the rules. */
    twostate predicate Does(step: Step)
      requires old(Can(step))
      reads this, bank, bank.Repr
    {
      Valid() && fresh(bank.Repr - old(bank.Repr)) && S() == Next(old(S()), step) && (old(Orderly(S(), step)) ==> Inv(S()))
    }

    /** The caller joins itself, or a thread whose wait_id is the caller's id. */
    predicate Deadlocks(t: Ptr)
      reads this
    {
      && running in threads && t in threads
      && (threads[running].id == threads[t].id || threads[t].waitId == threads[running].id)
    }

    /** Some registered joiner has the caller's id as its wait_id. */
    predicate WaitedFor()
      reads this
    {
      running in threads && exists id :: id in waiting && waiting[id] in threads && threads[waiting[id]].waitId == threads[running].id
    }

    predicate InTable(t: Ptr)
      reads this
    {
      t in threads && threads[t].id in table
    }

    /** What the ready queues and the wait queue of m hold. */
    ghost function ReadyNow(): seq<seq<Ptr>>
      reads this, bank, bank.Repr
    {
      if bank.Valid() then ReadyOf(bank.V()) else [[], [], [], [], []]
    }

    ghost function WaitersNow(m: MutexPtr): seq<Ptr>
      reads this, bank, bank.Repr
    {
      if bank.Valid() then QueueAt(bank.V(), Wait(m)) else []
    }

    /** What the queues hold is what the state has. */
    lemma Reading(m: MutexPtr)
      requires Valid()
      ensures ReadyNow() == S().ready
      ensures m in S().mutexes ==> WaitersNow(m) == S().mutexes[m].queue && UserOf(m) == S().mutexes[m].user
    {
      hide Bank.Valid, Bank.V, Keyed;
    }

    /** What a thread that is known is; a new one otherwise. */
    function Of(t: Ptr): Thread
      reads this
    {
      if t in threads then threads[t] else Thread(-1, 0, 0, -1, Active, User)
    }

    function UserOf(m: MutexPtr): Option<Ptr>
      reads this
    {
      if m in cells then cells[m].user else None
    }

    /** scheduler_init */
    constructor (p: Ptr, junk: int)
      ensures Valid() && fresh(bank) && fresh(bank.Repr)
      ensures S() == Init(p, junk) && Inv(S())
    {
      hide Bank.Valid, Bank.V, ReadyOf, MutexesOf, Keyed, QueueAt, Inv;
      threads := map[p := Thread(0, 0, 0, junk, Active, User)];
      main, running := p, p;
      bank := new Bank();
      level, runAt, count := 0, 0, 1;
      freeIds, registered := [], [];
      table, waiting, cells := map[], map[], map[];
      done, holds := {}, {};
      new;
      MakeLevels(bank);
      EmptiesAll(cells);
      InitInv(p, junk);
    }

    method SetStatus(p: Ptr, st: Status)
      requires Valid() && p in threads
      modifies `threads
      ensures Valid() && S() == Set(old(S()), p, old(threads[p]).(status := st))
    {
      hide Bank.Valid, Bank.V, ReadyOf, MutexesOf, Keyed, QueueAt;
      threads := threads[p := threads[p].(status := st)];
    }

    /** enqueue(thread, priority_level[l]) */
    method PutReady(p: Ptr, l: int)
      requires Valid() && 0 <= l < 5
      modifies bank, bank.Repr
      ensures Valid() && fresh(bank.Repr - old(bank.Repr))
      ensures S() == old(S()).(ready := Enqueue(old(S()).ready, l, p))
    {
      hide Bank.Valid, Bank.V, ReadyOf, MutexesOf, Keyed, QueueAt;
      ghost var v := bank.V();
      LevelChanged(cells, v, l, ReadyOf(v)[l] + [p]);
      bank.Put(Level(l), p);
    }

    /** A blocked thread becomes active and ready. */
    method Wake(p: Ptr)
      requires Valid() && p in threads && 0 <= threads[p].priority < 5
      modifies `threads, bank, bank.Repr
      ensures Valid() && fresh(bank.Repr - old(bank.Repr))
      ensures S() == Moved(old(S()), p)
    {
      hide Bank.Valid, Bank.V, ReadyOf, MutexesOf, Keyed, QueueAt;
      SetStatus(p, Active);
      PutReady(p, threads[p].priority);
    }

    /** The search for the next thread (261-267). */
    method SelectNext()
      requires Valid() && 0 <= level < 5 && SomeReady(S().ready)
      modifies `running, `level, bank, bank.Repr
      ensures Valid() && fresh(bank.Repr - old(bank.Repr))
      ensures S() == Dispatch(old(S()))
    {
      hide Bank.Valid, Bank.V, ReadyOf, MutexesOf, Keyed, QueueAt, FirstLevel, SomeReady;
      ghost var v := bank.V();
      running, level := Search(bank, level, cells);
      Tried(cells, v, level);
    }

    /** The switch of the handler, for a thread that gives up the processor. */
    method PutAway()
      requires Valid() && Wellformed(S()) && !Continues(S())
      modifies `threads, bank, bank.Repr
      ensures Valid() && fresh(bank.Repr - old(bank.Repr))
      ensures S() == Requeue(old(S()))
    {
      hide Bank.Valid, Bank.V, ReadyOf, MutexesOf, Keyed, QueueAt;
      var t := threads[running];
      match t.status {
        case Active =>
          threads := threads[running := t.(intervals := 0, priority := (t.priority + 1) % 5)];
          PutReady(running, threads[running].priority);
        case Yield =>
          PutReady(running, t.priority);
        case WaitMutex =>
        case WaitThread =>
        case Exited =>
          if t.id in waiting {
            var w := waiting[t.id];
            Wake(w);
          }
      }
    }

    /** The priority counters and the next thread (254-267). */
    method Switch()
      requires Valid() && |S().ready| == 5 && 0 <= NextCounters(S()).level < 5 && SomeReady(S().ready)
      modifies `running, `level, `runAt, bank, bank.Repr
      ensures Valid() && fresh(bank.Repr - old(bank.Repr))
      ensures S() == Dispatch(NextCounters(old(S())))
    {
      hide Bank.Valid, Bank.V, ReadyOf, MutexesOf, Keyed, QueueAt, FirstLevel, SomeReady;
      if runAt < 5 - level {
        level, runAt := (level + 1) % 5, 0;
      } else {
        runAt := runAt + 1;
      }
      SelectNext();
    }

    /** scheduler_alarm_handler */
    method Alarm()
      requires Valid() && CanHandle(S())
      modifies `threads, `running, `level, `runAt, bank, bank.Repr
      ensures Valid() && fresh(bank.Repr - old(bank.Repr))
      ensures S() == Handler(old(S()))
      ensures old(Inv(S())) ==> Inv(S())
    {
      hide Bank.Valid, Bank.V, ReadyOf, MutexesOf, Keyed, QueueAt, Requeue, Dispatch, NextCounters, SomeReady, Inv;
      ghost var s := S();
      if Inv(s) {
        TickKeeps(s);
      }
      var t := threads[running];
      if t.status == Active && t.intervals < level {
        threads := threads[running := t.(intervals := t.intervals + 1)];
        return;
      }
      RequeueShape(s);
      PutAway();
      Switch();
    }

    /** get_ID: an id no thread in the table has. */
    method GetId() returns (id: int)
      requires Valid() && Inv(S()) && (freeIds != [] || count < 1000)
      modifies `count, `freeIds
      ensures 1 <= id < 1000 && id !in table && (forall p :: p in threads && threads[p].status != Exited ==> threads[p].id != id)
      ensures if old(freeIds) == [] then id == old(count) && count == id + 1 && freeIds == []
              else id == old(freeIds)[0] && count == old(count) && freeIds == old(freeIds)[1..]
    {
      hide Bank.Valid, Bank.V, ReadyOf, MutexesOf, Keyed, QueueAt, Queues, Locks, Joins, Ids;
      AllNewIdIsFree(S());
      if freeIds == [] {
        id := count;
        count := count + 1;
      } else {
        id := freeIds[0];
        freeIds := freeIds[1..];
      }
    }

    /** Lines 316-323. */
    method Register(p: Ptr, id: int)
      requires Valid()
      modifies `threads, `table, `waiting, `done
      ensures Valid()
      ensures var s := old(S());
              S() == s.(threads := s.threads[p := Thread(id, 0, 0, -1, Active, User)], table := s.table[id := p],
                        waiting := s.waiting - {id}, done := s.done - {id})
    {
      hide Bank.Valid, Bank.V, ReadyOf, MutexesOf, Keyed, QueueAt;
      threads := threads[p := Thread(id, 0, 0, -1, Active, User)];
      table := table[id := p];
      waiting := waiting - {id};
      done := done - {id};
    }

    /** my_pthread_create. The source needs an id below THREAD_LIM. */
    method Create(p: Ptr)
      requires Can(Step.Create(p))
      modifies this, bank, bank.Repr
      ensures var id := if old(freeIds) == [] then old(count) else old(freeIds)[0];
              && threads == old(threads)[p := Thread(id, 0, 0, -1, Active, User)] && table == old(table)[id := p]
              && waiting == old(waiting) - {id} && done == old(done) - {id}
      ensures ReadyNow() == old(ReadyNow())[0 := old(ReadyNow())[0] + [p]] && running == old(running) && level == old(level)
      ensures Does(Step.Create(p))
    {
      hide Bank.Valid, Bank.V, ReadyOf, MutexesOf, Keyed, QueueAt, Inv, Next, Possible, Orderly, NewId;
      ghost var s := S();
      CreateStep(s, p);
      BooksChange(s, Step.Create(p));
      QuietReady(s, Step.Create(p));
      var id := GetId();
      Register(p, id);
      PutReady(p, 0);
    }

    /** my_pthread_yield */
    method YieldNow()
      requires Can(YieldCall)
      modifies this, bank, bank.Repr
      ensures Does(YieldCall)
    {
      hide Bank.Valid, Bank.V, ReadyOf, MutexesOf, Keyed, QueueAt, Queues, Locks, Joins, Ids, Handler, Orderly;
      StepKeepsIf(S(), YieldCall);
      SetStatus(running, Yield);
      Alarm();
    }

    /** pthread_exit */
    method ExitNow()
      requires Can(Exit)
      modifies this, bank, bank.Repr
      ensures Does(Exit)
    {
      hide Bank.Valid, Bank.V, ReadyOf, MutexesOf, Keyed, QueueAt, Queues, Locks, Joins, Ids, Handler, Orderly;
      StepKeepsIf(S(), Exit);
      SetStatus(running, Exited);
      done := done + {threads[running].id};
      Alarm();
    }

    /** The scan of my_pthread_join for a thread that waits for the caller (370-376). */
    method SomebodyWaitsForMe() returns (b: bool)
      requires Valid() && Inv(S())
      ensures b <==> exists id :: id in waiting && waiting[id] in threads && threads[waiting[id]].waitId == threads[running].id
    {
      hide Bank.Valid, Bank.V, ReadyOf, MutexesOf, Keyed, QueueAt, Queues, Locks;
      var i := 0;
      while i < 1000
        invariant 0 <= i <= 1000
        invariant forall id :: 0 <= id < i && id in waiting ==> threads[waiting[id]].waitId != threads[running].id
      {
        if i in waiting && threads[waiting[i]].waitId == threads[running].id {
          return true;
        }
        i := i + 1;
      }
      b := false;
    }

    /** my_pthread_join, up to the alarm if it has to wait, else to its end. */
    method JoinOn(t: Ptr) returns (code: Code)
      requires Can(Join(t))
      modifies this, bank, bank.Repr
      ensures code == OK <==> !old(Deadlocks(t)) && !old(WaitedFor()) && old(InTable(t))
      ensures code == EDEADLK <==> old(Deadlocks(t))
      ensures code == EINVAL <==> !old(Deadlocks(t)) && old(WaitedFor())
      ensures code == ESRCH <==> !old(Deadlocks(t)) && !old(WaitedFor()) && !old(InTable(t))
      ensures code != OK ==>
                && threads == old(threads) && table == old(table) && waiting == old(waiting) && freeIds == old(freeIds)
                && done == old(done) && running == old(running) && ReadyNow() == old(ReadyNow())
      ensures var id := old(Of(t)).id;
              code == OK && id in old(done) ==>
                && table == old(table) - {id} && waiting == old(waiting) - {id} && freeIds == [id] + old(freeIds)
                && done == old(done) && running == old(running) && ReadyNow() == old(ReadyNow()) && threads == old(threads)
      ensures var id := old(Of(t)).id;
              code == OK && id !in old(done) ==>
                && waiting == old(waiting)[id := old(running)] && table == old(table) && freeIds == old(freeIds)
                && Of(old(running)) == old(Of(running)).(status := WaitThread, waitId := id, pending := Reap(id))
                && running != old(running)
      ensures Does(Join(t))
    {
      hide Bank.Valid, Bank.V, ReadyOf, MutexesOf, Keyed, QueueAt, Inv, Next, Possible, Orderly, CanHandle, Handler;
      ghost var s := S();
      JoinStep(s, t);
      JoinEffects(s, t);
      var id := threads[t].id;
      if threads[running].id == id {
        return EDEADLK;
      }
      if threads[t].waitId == threads[running].id {
        return EDEADLK;
      }
      var waitedFor := SomebodyWaitsForMe();
      if waitedFor {
        return EINVAL;
      }
      if id !in table {
        return ESRCH;
      }
      code := OK;
      if id !in done {
        threads := threads[running := threads[running].(status := WaitThread, waitId := id, pending := Reap(id))];
        waiting := waiting[id := running];
        Alarm();
      } else {
        CleanUp(id);
      }
    }

    /** The clean-up of my_pthread_join (393-404), with free_ID. */
    method CleanUp(id: int)
      requires Valid() && running in threads
      modifies `threads, `waiting, `table, `freeIds
      ensures Valid() && S() == Reaped(old(S()), id)
    {
      hide Bank.Valid, Bank.V, ReadyOf, MutexesOf, Keyed, QueueAt;
      threads := threads[running := threads[running].(pending := User)];
      waiting := waiting - {id};
      table := table - {id};
      freeIds := [id] + freeIds;
    }

    /** The rest of a join that waited. */
    method AfterJoin()
      requires Can(DoReap)
      modifies this
      ensures Does(DoReap)
    {
      hide Bank.Valid, Bank.V, ReadyOf, MutexesOf, Keyed, QueueAt, Queues, Locks, Joins, Ids, Orderly;
      StepKeepsIf(S(), DoReap);
      CleanUp(threads[running].pending.id);
    }

    /** A mutex with an empty queue of its own. */
    method NewMutex(m: MutexPtr, user: Option<Ptr>)
      requires Valid()
      modifies `cells, bank, bank.Repr
      ensures Valid() && fresh(bank.Repr - old(bank.Repr))
      ensures S() == old(S()).(mutexes := old(S()).mutexes[m := Mutex(user, [], true)])
      ensures cells == old(cells)[m := Cell(user, true)] && WaitersNow(m) == []
    {
      hide Bank.Valid, Bank.V, ReadyOf, MutexesOf, Keyed, QueueAt;
      ghost var v := bank.V();
      bank.Make(Wait(m));
      WaitChanged(cells, v, m, [], Cell(user, true));
      cells := cells[m := Cell(user, true)];
    }

    /** my_pthread_mutex_init: the queue is a new one in every case. */
    method InitMutex(m: MutexPtr) returns (code: Code)
      requires Can(MutexInit(m))
      modifies this, bank, bank.Repr
      ensures code == if m in old(registered) then EBUSY else OK
      ensures registered == if m in old(registered) || |old(registered)| >= 1000 then old(registered) else old(registered) + [m]
      ensures |old(registered)| < 1000 || m in old(registered) ==> m in registered
      ensures code == EBUSY && m in old(cells) ==> UserOf(m) == old(UserOf(m))
      ensures code == OK ==> UserOf(m) == None
      ensures WaitersNow(m) == [] && threads == old(threads) && ReadyNow() == old(ReadyNow())
      ensures Does(MutexInit(m))
    {
      hide Bank.Valid, Bank.V, ReadyOf, MutexesOf, Keyed, QueueAt, Inv, Next, Possible, Orderly;
      ghost var s := S();
      InitStep(s, m);
      BooksChange(s, MutexInit(m));
      var user := if m in registered && m in cells then cells[m].user else None;
      NewMutex(m, user);
      if m in registered {
        return EBUSY;
      }
      if |registered| < 1000 {
        registered := registered + [m];
      }
      code := OK;
    }

    /** my_pthread_mutex_lock, up to the alarm if it has to wait, else to its end. */
    method LockMutex(m: MutexPtr) returns (code: Code)
      requires Can(Lock(m))
      modifies this, bank, bank.Repr
      ensures code == if old(UserOf(m)) == Some(old(running)) then EDEADLK else OK
      ensures Does(Lock(m))
    {
      hide Bank.Valid, Bank.V, ReadyOf, MutexesOf, Keyed, QueueAt, Queues, Locks, Joins, Ids, Handler, Orderly;
      StepKeepsIf(S(), Lock(m));
      if cells[m].user == Some(running) {
        return EDEADLK;
      } else if cells[m].user.Some? {
        EnterQueue(m);
        Alarm();
      } else {
        ClaimMutex(m);
      }
      code := OK;
    }

    /** Lines 469-471. */
    method EnterQueue(m: MutexPtr)
      requires Valid() && running in threads && m in cells
      modifies `threads, bank, bank.Repr
      ensures Valid() && fresh(bank.Repr - old(bank.Repr))
      ensures S() == Blocking(old(S()), m)
    {
      hide Bank.Valid, Bank.V, ReadyOf, MutexesOf, Keyed, QueueAt;
      ghost var v := bank.V();
      WaitChanged(cells, v, m, MutexesOf(cells, v)[m].queue + [running], cells[m]);
      bank.Put(Wait(m), running);
      assert cells[m := cells[m]] == cells;
      threads := threads[running := threads[running].(status := WaitMutex, pending := Claim(m))];
    }

    /** `mutex->user = running_thread` */
    method ClaimMutex(m: MutexPtr)
      requires Valid() && running in threads && m in cells
      modifies `threads, `cells, `holds
      ensures Valid() && S() == Claimed(old(S()), m)
    {
      hide Bank.Valid, Bank.V, ReadyOf, MutexesOf, Keyed, QueueAt;
      CellChanged(cells, bank.V(), m, cells[m].(user := Some(running)));
      cells := cells[m := cells[m].(user := Some(running))];
      threads := threads[running := threads[running].(pending := User)];
      holds := holds + {(running, m)};
    }

    /** The rest of a lock that waited. */
    method AfterLock()
      requires Can(DoClaim)
      modifies this
      ensures Does(DoClaim)
      ensures S().mutexes == old(S().mutexes)
    {
      hide Bank.Valid, Bank.V, ReadyOf, MutexesOf, Keyed, QueueAt, Queues, Locks, Joins, Ids, Orderly;
      StepKeepsIf(S(), DoClaim);
      ClaimOverwritesNobody(S());
      ClaimMutex(threads[running].pending.m);
      assert S().mutexes == old(S().mutexes);
    }

    /** my_pthread_mutex_unlock */
    method UnlockMutex(m: MutexPtr) returns (code: Code)
      requires Can(Unlock(m))
      modifies this, bank, bank.Repr
      ensures code == if old(UserOf(m)) == Some(old(running)) then OK else EPERM
      ensures code != OK ==> threads == old(threads) && cells == old(cells) && ReadyNow() == old(ReadyNow())
      ensures var q := old(WaitersNow(m));
              code == OK && q == [] ==> UserOf(m) == None && threads == old(threads) && ReadyNow() == old(ReadyNow())
      ensures var q := old(WaitersNow(m));
              code == OK && q != [] ==>
                && UserOf(m) == Some(q[0]) && WaitersNow(m) == q[1..]
                && var l := old(Of(q[0]).priority);
                && threads == old(threads)[q[0] := old(Of(q[0])).(status := Active)]
                && 0 <= l < 5 && ReadyNow() == old(ReadyNow())[l := old(ReadyNow())[l] + [q[0]]]
      ensures Does(Unlock(m))
    {
      hide Bank.Valid, Bank.V, ReadyOf, MutexesOf, Keyed, QueueAt, Inv, Next, Possible, Orderly, ReadyNow, WaitersNow;
      ghost var s := S();
      UnlockStep(s, m);
      Reading(m);
      if cells[m].user != Some(running) {
        return EPERM;
      }
      UnlockEffects(s, m);
      HandOff(m);
      holds := holds - {(running, m)};
      Reading(m);
      code := OK;
    }

    /** Lines 498-502. */
    method HandOff(m: MutexPtr)
      requires Valid() && m in cells
      requires Movable(S(), S().mutexes[m].queue)
      modifies `threads, `cells, bank, bank.Repr
      ensures Valid() && fresh(bank.Repr - old(bank.Repr))
      ensures S() == Unlocked(old(S()), m).(holds := holds)
    {
      hide Bank.Valid, Bank.V, ReadyOf, MutexesOf, Keyed, QueueAt, Enqueue;
      ghost var v := bank.V();
      WaitAt(cells, v, m);
      var next := bank.Take(Wait(m));
      var c := cells[m].(user := next);
      if next.Some? {
        WaitChanged(cells, v, m, v[Wait(m)][1..], c);
      } else {
        CellChanged(cells, v, m, c);
      }
      cells := cells[m := c];
      if next.Some? {
        Wake(next.value);
      }
    }

    /** The loop of my_pthread_mutex_destroy (540-544). */
    method MoveWaiters(m: MutexPtr)
      requires Valid() && m in cells
      requires Movable(S(), S().mutexes[m].queue)
      modifies `threads, bank, bank.Repr
      ensures Valid() && fresh(bank.Repr - old(bank.Repr))
      ensures S() == Drain(old(S()), old(S()).mutexes[m].queue).(mutexes := S().mutexes)
      ensures S().mutexes == old(S()).mutexes[m := old(S()).mutexes[m].(queue := [])]
    {
      hide Bank.Valid, Bank.V, ReadyOf, MutexesOf, Keyed, QueueAt, Drain, Drains, Moved, Movable;
      ghost var s := S();
      ghost var q := s.mutexes[m].queue;
      DrainBegin(s, m);
      WaitAt(cells, bank.V(), m);
      var n := bank.Size(Wait(m));
      while n > 0
        invariant Valid() && fresh(bank.Repr - old(bank.Repr)) && m in cells && n == |q|
        invariant Drains(S(), q, s, m)
        decreases n
      {
        n := Turn(m, q, s);
        q := q[1..];
      }
      DrainEnd(S(), s, m);
    }

    /** One turn of the loop. */
    method Turn(m: MutexPtr, ghost q: seq<Ptr>, ghost s: State) returns (n: int)
      requires Valid() && m in cells && q != [] && Drains(S(), q, s, m)
      modifies `threads, bank, bank.Repr
      ensures Valid() && fresh(bank.Repr - old(bank.Repr))
      ensures n == |q| - 1 && Drains(S(), q[1..], s, m)
    {
      hide Bank.Valid, Bank.V, ReadyOf, MutexesOf, Keyed, QueueAt, Drain, Drains, Moved;
      ghost var s1 := S();
      DrainReady(s1, q, s, m);
      MoveOne(m);
      DrainStep(s1, q, s, m, S());
      WaitAt(cells, bank.V(), m);
      DrainReady(S(), q[1..], s, m);
      n := bank.Size(Wait(m));
    }

    method MoveOne(m: MutexPtr)
      requires Valid() && m in cells && S().mutexes[m].queue != []
      requires var p := S().mutexes[m].queue[0]; p in threads && 0 <= threads[p].priority < 5
      modifies `threads, bank, bank.Repr
      ensures Valid() && fresh(bank.Repr - old(bank.Repr))
      ensures var s, q := old(S()), old(S()).mutexes[m].queue;
              S() == Moved(s, q[0]).(mutexes := s.mutexes[m := s.mutexes[m].(queue := q[1..])])
    {
      hide Bank.Valid, Bank.V, ReadyOf, MutexesOf, Keyed, QueueAt;
      ghost var v := bank.V();
      WaitAt(cells, v, m);
      var next := bank.Take(Wait(m));
      WaitChanged(cells, v, m, v[Wait(m)][1..], cells[m]);
      assert cells[m := cells[m]] == cells;
      Wake(next.value);
    }

    /** Lines 539-546, for a mutex nobody waits for. */
    method Clear(m: MutexPtr)
      requires Valid() && m in cells && S().mutexes[m].queue == [] && Movable(S(), []) && Drain(S(), []) == S()
      modifies `threads, `cells, bank, bank.Repr
      ensures Valid() && fresh(bank.Repr - old(bank.Repr))
      ensures S() == old(S()).(mutexes := old(S()).mutexes[m := Mutex(None, [], false)])
    {
      hide Bank.Valid, Bank.V, ReadyOf, MutexesOf, Keyed, QueueAt, Drain;
      ghost var s := S();
      MoveWaiters(m);
      assert S().mutexes == s.mutexes && S() == s;
      CellChanged(cells, bank.V(), m, Cell(None, false));
      cells := cells[m := Cell(None, false)];
    }

    /** my_pthread_mutex_destroy. Its loop never has a waiter to move. */
    method DestroyMutex(m: MutexPtr) returns (code: Code)
      requires Can(Destroy(m))
      modifies this, bank, bank.Repr
      ensures code == if m !in old(registered) then EINVAL else if old(UserOf(m)).Some? then EBUSY else OK
      ensures Does(Destroy(m))
      ensures S().ready == old(S().ready) && threads == old(threads)
    {
      hide Bank.Valid, Bank.V, ReadyOf, MutexesOf, Keyed, QueueAt, Inv, Next, Possible, Orderly, Drain, Wellformed;
      DestroyStep(S(), m);
      if m !in registered {
        return EINVAL;
      }
      if cells[m].user.Some? {
        return EBUSY;
      }
      Clear(m);
      code := OK;
    }
  }

  ghost predicate Movable(s: State, q: seq<Ptr>) {
    |s.ready| == 5 && forall i :: 0 <= i < |q| ==> q[i] in s.threads && 0 <= s.threads[q[i]].priority < 5
  }

  /** In state s1 the rest q is still to be moved: that completes the move of the whole queue from state s on. */
  ghost predicate Drains(s1: State, q: seq<Ptr>, s: State, m: MutexPtr) {
    && m in s.mutexes && Movable(s1, q) && Movable(s, s.mutexes[m].queue)
    && Drain(s1.(mutexes := s.mutexes), q) == Drain(s, s.mutexes[m].queue)
    && s1.mutexes == s.mutexes[m := s.mutexes[m].(queue := q)]
  }

  function Moved(s: State, p: Ptr): State
    requires p in s.threads && |s.ready| == 5 && 0 <= s.threads[p].priority < 5
  {
    Set(s, p, s.threads[p].(status := Active)).(ready := Enqueue(s.ready, s.threads[p].priority, p))
  }

  lemma DrainBegin(s: State, m: MutexPtr)
    requires m in s.mutexes && Movable(s, s.mutexes[m].queue)
    ensures Drains(s, s.mutexes[m].queue, s, m)
  {
    assert s.mutexes[m := s.mutexes[m].(queue := s.mutexes[m].queue)] == s.mutexes;
  }

  lemma DrainReady(s1: State, q: seq<Ptr>, s: State, m: MutexPtr)
    requires Drains(s1, q, s, m)
    ensures m in s1.mutexes && s1.mutexes[m].queue == q
    ensures q != [] ==> q[0] in s1.threads && |s1.ready| == 5 && 0 <= s1.threads[q[0]].priority < 5
  {
  }

  lemma DrainStep(s1: State, q: seq<Ptr>, s: State, m: MutexPtr, s2: State)
    requires Drains(s1, q, s, m) && q != [] && m in s1.mutexes
    requires q[0] in s1.threads && |s1.ready| == 5 && 0 <= s1.threads[q[0]].priority < 5
    requires s2 == Moved(s1, q[0]).(mutexes := s1.mutexes[m := s1.mutexes[m].(queue := q[1..])])
    ensures Drains(s2, q[1..], s, m)
  {
    var r := s1.(mutexes := s.mutexes);
    assert Drain(r, q) == Drain(Moved(r, q[0]), q[1..]);
    assert s2.(mutexes := s.mutexes) == Moved(r, q[0]);
  }

  lemma DrainEnd(s1: State, s: State, m: MutexPtr)
    requires Drains(s1, [], s, m)
    ensures Movable(s, s.mutexes[m].queue) && s1 == Drain(s, s.mutexes[m].queue).(mutexes := s1.mutexes)
    ensures s1.mutexes == s.mutexes[m := s.mutexes[m].(queue := [])]
  {
  }

  /** n empty levels */
  function Empties(n: int): Lists {
    map l | 0 <= l < n :: Level(l) := []
  }

  lemma EmptiesStep(n: int)
    requires 0 <= n
    ensures Empties(n)[Level(n) := []] == Empties(n + 1)
  {
  }

  lemma EmptiesAll(cells: map<MutexPtr, Cell>)
    ensures cells == map[] ==> Keyed(cells, Empties(5))
    ensures ReadyOf(Empties(5)) == [[], [], [], [], []] && (forall l :: 0 <= l < 5 ==> Level(l) in Empties(5))
    ensures cells == map[] ==> MutexesOf(cells, Empties(5)) == map[]
  {
  }

  // What the steps come to, for states in which they may be taken.

  lemma StepKeepsIf(s: State, step: Step)
    requires Inv(s) && Wellformed(s) && Possible(s, step)
    ensures Orderly(s, step) ==> Inv(Next(s, step))
  {
    hide Inv, Possible, Next;
    if Orderly(s, step) {
      StepKeeps(s, step);
    }
  }

  lemma CreateStep(s: State, p: Ptr)
    requires Inv(s) && Wellformed(s) && Possible(s, Step.Create(p))
    ensures Next(s, Step.Create(p)) == Created(s, p) && Orderly(s, Step.Create(p)) && Inv(Created(s, p)) && (s.freeIds != [] || s.count < 1000)
  {
    hide Inv, Created;
    StepKeepsIf(s, Step.Create(p));
  }

  lemma DestroyStep(s: State, m: MutexPtr)
    requires Inv(s) && Wellformed(s) && Possible(s, Destroy(m))
    ensures m in s.mutexes && Inv(Next(s, Destroy(m)))
    ensures if m in s.registered && s.mutexes[m].user == None then
              && s.mutexes[m].queue == [] && Movable(s, []) && Drain(s, []) == s
              && Next(s, Destroy(m)) == s.(mutexes := s.mutexes[m := Mutex(None, [], false)])
            else Next(s, Destroy(m)) == s
  {
    hide Inv, Destroyed;
    StepKeepsIf(s, Destroy(m));
    if s.mutexes[m].user == None {
      DestroyedKeeps(s, m);
    }
  }

  lemma JoinStep(s: State, t: Ptr)
    requires Inv(s) && Wellformed(s) && Possible(s, Join(t))
    ensures t in s.threads && (Orderly(s, Join(t)) ==> Inv(Next(s, Join(t))))
    ensures JoinCode(s, t).OK? && s.threads[t].id !in s.done ==>
              CanHandle(Joining(s, s.threads[t].id)) && Next(s, Join(t)) == Handler(Joining(s, s.threads[t].id))
    ensures JoinCode(s, t).OK? && s.threads[t].id in s.done ==> Next(s, Join(t)) == Reaped(s, s.threads[t].id)
    ensures !JoinCode(s, t).OK? ==> Next(s, Join(t)) == s
  {
    hide Inv, Handler, Reaped, Joining, JoinCode;
    StepKeepsIf(s, Join(t));
  }

  lemma UnlockStep(s: State, m: MutexPtr)
    requires Inv(s) && Wellformed(s) && Possible(s, Unlock(m))
    ensures m in s.mutexes && |s.ready| == 5 && Movable(s, s.mutexes[m].queue) && Orderly(s, Unlock(m)) && Inv(Next(s, Unlock(m)))
    ensures Next(s, Unlock(m)) == if s.mutexes[m].user == Some(s.running) then Unlocked(s, m) else s
  {
    hide Inv, Unlocked;
    StepKeepsIf(s, Unlock(m));
  }

  lemma InitStep(s: State, m: MutexPtr)
    requires Inv(s) && Wellformed(s) && Possible(s, MutexInit(m))
    ensures Next(s, MutexInit(m)) == Initialized(s, m) && (Orderly(s, MutexInit(m)) ==> Inv(Initialized(s, m)))
  {
    hide Inv, Initialized;
    StepKeepsIf(s, MutexInit(m));
  }

  lemma AllNewIdIsFree(s: State)
    requires Inv(s) && (s.freeIds != [] || s.count < 1000)
    ensures 1 <= NewId(s) < 1000 && NewId(s) !in s.table && |s.ready| == 5
    ensures forall p :: p in s.threads && s.threads[p].status != Exited ==> s.threads[p].id != NewId(s)
  {
    hide Queues, Locks, Joins;
    InvWellformed(s);
  }

  /** Queues v' are queues v after thread p left the front of level l. */
  ghost predicate TookFrom(v: Lists, ready: seq<seq<Ptr>>, l: int, p: Ptr, v': Lists) {
    0 <= l < |ready| && ready[l] != [] && p == ready[l][0] && v' == v[Level(l) := ready[l][1..]]
  }

  lemma Tried(cells: map<MutexPtr, Cell>, v: Lists, l: int)
    requires Keyed(cells, v) && 0 <= l < 5 && SomeReady(ReadyOf(v))
    ensures Level(l) in v && ReadyOf(v)[l] == v[Level(l)]
    ensures v[Level(l)] != [] ==>
              && FirstLevel(ReadyOf(v), l) == l
              && var v' := v[Level(l) := v[Level(l)][1..]];
                 Keyed(cells, v') && ReadyOf(v') == ReadyOf(v)[l := ReadyOf(v)[l][1..]] && MutexesOf(cells, v') == MutexesOf(cells, v)
  {
  }

  /** How far it is from level l up to the first level with a thread. */
  ghost function Distance(ready: seq<seq<Ptr>>, l: int): int {
    if |ready| == 5 && 0 <= l < 5 && SomeReady(ready) then (FirstLevel(ready, l) - l + 5) % 5 else 0
  }

  lemma RequeueShape(s: State)
    requires Wellformed(s)
    ensures var r := Requeue(s); |r.ready| == 5 && r.level == s.level && r.runAt == s.runAt && 0 <= NextCounters(r).level < 5
  {
  }

  /** Passing over an empty level comes one step closer to the first non-empty one. */
  lemma StepUp(ready: seq<seq<Ptr>>, l: int)
    requires |ready| == 5 && 0 <= l < 5 && SomeReady(ready) && ready[l] == []
    ensures FirstLevel(ready, (l + 1) % 5) == FirstLevel(ready, l) && 0 <= Distance(ready, (l + 1) % 5) < Distance(ready, l)
  {
    var k :| 0 <= k < 5 && ready[k] != [];
    var d := if ready[(l + 1) % 5] != [] then 1 else if ready[(l + 2) % 5] != [] then 2 else if ready[(l + 3) % 5] != [] then 3 else 4;
    CyclicSteps(l, d);
    assert FirstLevel(ready, l) == (l + d) % 5;
  }

  lemma CyclicSteps(l: int, d: int)
    requires 0 <= l < 5 && 1 <= d < 5
    ensures ((l + 1) % 5 + 1) % 5 == (l + 2) % 5 && ((l + 1) % 5 + 2) % 5 == (l + 3) % 5 && ((l + 1) % 5 + 3) % 5 == (l + 4) % 5
    ensures ((l + d) % 5 - l + 5) % 5 == d && ((l + d) % 5 - (l + 1) % 5 + 5) % 5 == d - 1
  {
  }
}
