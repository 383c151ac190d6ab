/** Runs from scheduler_init that lead to the states in which the checks of my_pthread_join go wrong
    (asst1/my_pthread.c:358-410). */
module SchedExamples {
  import opened Sched
  import opened SchedInv
  import opened SchedRuns
  import opened SchedJoin
  import opened SchedLost

  /** A state in which all ready threads are at level 0 and no mutex exists. */
  function Small(threads: map<Ptr, Thread>, ready: seq<Ptr>, running: Ptr, count: int, freeIds: seq<int>,
                 table: map<int, Ptr>, waiting: map<int, Ptr>, done: set<int>): State {
    State(threads, 0, [ready, [], [], [], []], running, 0, 0, count, freeIds, table, waiting, done, map[], [], {})
  }

  /** Such a state, as the steps need it. */
  predicate Tidy(s: State) {
    && Wellformed(s) && s.level == 0 && s.runAt == 0 && s.ready == [s.ready[0], [], [], [], []]
    && (forall p :: p in s.threads ==> s.threads[p].priority == 0)
  }

  /** The thread at the front of level 0 is dispatched. */
  function Front(s: State, q: seq<Ptr>): State
    requires q != []
  {
    s.(running := q[0], ready := [q[1..], [], [], [], []])
  }

  lemma DispatchFront(s: State, q: seq<Ptr>)
    requires s.level == 0 && s.runAt == 0 && q != [] && s.ready == [q, [], [], [], []]
    ensures SomeReady(s.ready) && Dispatch(NextCounters(s)) == Front(s, q)
  {
    assert s.ready[0] == q;
    assert s.ready[0 := q[1..]] == [q[1..], [], [], [], []];
  }

  lemma HandleYield(s: State)
    requires Tidy(s) && Me(s).status == Yield
    ensures CanHandle(s) && Handler(s) == Front(s, s.ready[0] + [s.running])
  {
    hide Dispatch, NextCounters, SomeReady;
    var q := s.ready[0] + [s.running];
    assert Requeue(s) == s.(ready := [q, [], [], [], []]);
    DispatchFront(Requeue(s), q);
  }

  lemma HandleBlocked(s: State)
    requires Tidy(s) && Me(s).status == WaitThread && s.ready[0] != []
    ensures CanHandle(s) && Handler(s) == Front(s, s.ready[0])
  {
    hide Dispatch, NextCounters, SomeReady;
    DispatchFront(s, s.ready[0]);
  }

  lemma HandleExit(s: State, w: Ptr)
    requires Tidy(s) && Me(s).status == Exited && Me(s).id in s.waiting && s.waiting[Me(s).id] == w
    ensures w in s.threads && CanHandle(s)
    ensures Handler(s) == Front(Set(s, w, s.threads[w].(status := Active)), s.ready[0] + [w])
  {
    hide Dispatch, NextCounters, SomeReady;
    var q := s.ready[0] + [w];
    assert Requeue(s) == Set(s, w, s.threads[w].(status := Active)).(ready := [q, [], [], [], []]);
    DispatchFront(Requeue(s), q);
  }

  // ---------------------------------------------------------------- the run

  const MAIN := Thread(0, 0, 0, -1, Active, User)
  const YIELDED := Thread(0, 0, 0, -1, Yield, User)
  const ONE := Thread(1, 0, 0, -1, Active, User)
  const JOINER := Thread(1, 0, 0, 2, WaitThread, Reap(2))
  const TWO := Thread(2, 0, 0, -1, Active, User)

  /** main creates threads 1 and 2 and yields; thread 1 joins thread 2. */
  function E0(): State { Init(0, -1) }
  function E1(): State { Small(map[0 := MAIN, 1 := ONE], [1], 0, 2, [], map[1 := 1], map[], {}) }
  function E2(): State { Small(map[0 := MAIN, 1 := ONE, 2 := TWO], [1, 2], 0, 3, [], map[1 := 1, 2 := 2], map[], {}) }
  function E3(): State { Small(map[0 := YIELDED, 1 := ONE, 2 := TWO], [2, 0], 1, 3, [], map[1 := 1, 2 := 2], map[], {}) }
  function E4(): State {
    Small(map[0 := YIELDED, 1 := JOINER, 2 := TWO], [0], 2, 3, [], map[1 := 1, 2 := 2], map[2 := 1], {})
  }

  /** Thread 2 yields: main runs while thread 1 is registered for thread 2. */
  function Second(): State {
    Small(map[0 := YIELDED, 1 := JOINER, 2 := TWO.(status := Yield)], [2], 0, 3, [], map[1 := 1, 2 := 2], map[2 := 1], {})
  }

  /** Or thread 2 exits: main runs while thread 1 has been woken and has not run. */
  function E5(): State {
    Small(map[0 := YIELDED, 1 := JOINER.(status := Active), 2 := TWO.(status := Exited)], [1], 0, 3, [],
          map[1 := 1, 2 := 2], map[2 := 1], {2})
  }

  /** Thread 1 reaps thread 2 and creates thread 3, which gets id 2; then thread 3 runs. */
  function E6(): State { Front(E5(), [1, 0]) }
  function E7(): State {
    Small(map[0 := YIELDED, 1 := ONE.(waitId := 2), 2 := TWO.(status := Exited)], [0], 1, 3, [2], map[1 := 1], map[], {2})
  }
  function E8(): State {
    Small(map[0 := YIELDED, 1 := ONE.(waitId := 2), 2 := TWO.(status := Exited), 3 := TWO], [0, 3], 1, 3, [],
          map[1 := 1, 2 := 3], map[], {})
  }
  function E9(): State {
    Small(map[0 := YIELDED, 1 := ONE.(waitId := 2, status := Yield), 2 := TWO.(status := Exited), 3 := TWO], [3, 1], 0, 3, [],
          map[1 := 1, 2 := 3], map[], {})
  }
  function Stale(): State { Front(E9(), [3, 1, 0]) }

  ghost predicate Steps(s: State, step: Step, s': State) {
    Wellformed(s) && Enabled(s, step) && Next(s, step) == s'
  }

  lemma Step1()
    ensures Steps(E0(), Step.Create(1), E1())
  {
    var s := Created(E0(), 1);
    assert s.ready[0] == [1] && s.ready == E1().ready;
    assert s.threads == E1().threads && s.table == E1().table && s.waiting == map[] && s.done == {} && s.freeIds == [];
  }

  lemma Step2()
    ensures Steps(E1(), Step.Create(2), E2())
  {
    var s := Created(E1(), 2);
    assert s.ready[0] == [1, 2] && s.ready == E2().ready;
    assert s.threads == E2().threads && s.table == E2().table && s.waiting == map[] && s.done == {} && s.freeIds == [];
  }

  lemma YieldStep(s: State, s': State)
    requires Tidy(s) && Me(s).pending.User? && s' == Front(Yielding(s), s.ready[0] + [s.running])
    ensures Steps(s, YieldCall, s')
  {
    hide Handler;
    HandleYield(Yielding(s));
  }

  lemma Step3()
    ensures Steps(E2(), YieldCall, E3())
  {
    assert Yielding(E2()).threads == E3().threads;
    assert E2().ready[0] + [E2().running] == [1, 2, 0] && [1, 2, 0][1..] == [2, 0];
    YieldStep(E2(), E3());
  }

  lemma Step4()
    ensures Steps(E3(), Join(2), E4())
  {
    hide Handler;
    var s := Joining(E3(), 2);
    assert s.threads == E4().threads;
    HandleBlocked(s);
  }

  lemma StepSecond()
    ensures Steps(E4(), YieldCall, Second())
  {
    assert Yielding(E4()).threads == Second().threads;
    assert E4().ready[0] + [E4().running] == [0, 2] && [0, 2][1..] == [2];
    YieldStep(E4(), Second());
  }

  lemma Step5()
    ensures Steps(E4(), Exit, E5())
  {
    hide Handler;
    var s := Exiting(E4());
    HandleExit(s, 1);
    assert Set(s, 1, s.threads[1].(status := Active)).threads == E5().threads;
  }

  lemma Step6()
    ensures Steps(E5(), YieldCall, E6())
  {
    assert Yielding(E5()) == E5();
    assert E5().ready[0] + [E5().running] == [1, 0] && [1, 0][1..] == [0];
    YieldStep(E5(), E6());
  }

  lemma Step7()
    ensures Steps(E6(), DoReap, E7())
  {
    assert Reaped(E6(), 2) == E7();
  }

  lemma Step8()
    ensures Steps(E7(), Step.Create(3), E8())
  {
    var s := Created(E7(), 3);
    assert s.ready[0] == [0, 3] && s.ready == E8().ready;
    assert s.threads == E8().threads && s.table == E8().table && s.waiting == map[] && s.done == {} && s.freeIds == [];
  }

  lemma Step9()
    ensures Steps(E8(), YieldCall, E9())
  {
    assert Yielding(E8()).threads == E9().threads;
    assert E8().ready[0] + [E8().running] == [0, 3, 1] && [0, 3, 1][1..] == [3, 1];
    YieldStep(E8(), E9());
  }

  lemma Step10()
    ensures Steps(E9(), YieldCall, Stale())
  {
    assert Yielding(E9()) == E9();
    assert E9().ready[0] + [E9().running] == [3, 1, 0] && [3, 1, 0][1..] == [1, 0];
    YieldStep(E9(), Stale());
  }

  /** Some run from scheduler_init ends in s. */
  ghost predicate Reachable(s: State) {
    exists states: seq<State>, steps: seq<Step> :: IsRun(states, steps) && states[0] == Init(0, -1) && states[|steps|] == s
  }

  lemma ReachMore(s: State, step: Step, s': State)
    requires Reachable(s) && Steps(s, step, s')
    ensures Reachable(s')
  {
    hide Wellformed, Enabled, Next;
    var states: seq<State>, steps: seq<Step> :| IsRun(states, steps) && states[0] == Init(0, -1) && states[|steps|] == s;
    var more, most := states + [s'], steps + [step];
    forall i | 0 <= i < |most|
      ensures Steps(more[i], most[i], more[i + 1])
    {
      if i < |steps| {
        assert more[i] == states[i] && more[i + 1] == states[i + 1] && most[i] == steps[i];
      }
    }
    assert IsRun(more, most) && more[0] == Init(0, -1) && more[|most|] == s';
  }

  lemma ReachFirst()
    ensures Reachable(E0())
  {
    var states: seq<State>, steps: seq<Step> := [E0()], [];
    assert IsRun(states, steps) && states[0] == Init(0, -1) && states[|steps|] == E0();
  }

  lemma ReachJoin()
    ensures Reachable(E4())
  {
    hide Steps, Reachable, E0, E1, E2, E3, E4;
    ReachFirst();
    Step1();
    ReachMore(E0(), Step.Create(1), E1());
    Step2();
    ReachMore(E1(), Step.Create(2), E2());
    Step3();
    ReachMore(E2(), YieldCall, E3());
    Step4();
    ReachMore(E3(), Join(2), E4());
  }

  /** The check at 371-376 tests the caller and not the target: a second joiner passes it while the first one waits. */
  lemma SecondJoinerPasses()
    ensures var s := Second();
            Reachable(s) && Wellformed(s) && 2 in s.threads && JoinCode(s, 2) == OK && 2 in s.waiting && 2 !in s.done
  {
    hide Steps, Reachable, E4;
    ReachJoin();
    StepSecond();
    ReachMore(E4(), YieldCall, Second());
  }

  lemma ReachableInv(s: State)
    requires Reachable(s)
    ensures Inv(s)
  {
    hide Inv;
    var states: seq<State>, steps: seq<Step> :| IsRun(states, steps) && states[0] == Init(0, -1) && states[|steps|] == s;
    EveryRunFromInit(states, steps, 0, -1, |steps|);
  }

  /** The first joiner is then lost: over every run from there on it never runs again. */
  lemma FirstJoinerIsLost()
    ensures var s := Second();
            Wellformed(s) && Possible(s, Join(2)) && Lost(Next(s, Join(2)), 1)
  {
    hide Reachable, Inv, Lost, Handler;
    SecondJoinerPasses();
    ReachableInv(Second());
    var s := Joining(Second(), 2);
    HandleBlocked(s);
    JoinLosesIff(Second(), 2);
  }

  /** It passes also while the first one has been woken and has not run yet; the call then reaps the target itself. */
  lemma SecondReaperPasses()
    ensures var s := E5();
            Reachable(s) && Wellformed(s) && 2 in s.threads && JoinCode(s, 2) == OK && 2 in s.waiting && 2 in s.done
  {
    hide Steps, Reachable, E4;
    ReachJoin();
    Step5();
    ReachMore(E4(), Exit, E5());
  }

  /** The first joiner is then stranded: it goes on to reap an id that is no longer in the table. */
  lemma FirstJoinerIsStranded()
    ensures var s := E5();
            Wellformed(s) && Possible(s, Join(2)) && Stranded(Next(s, Join(2)), 1)
  {
    hide Reachable, Inv, Stranded, Handler;
    SecondReaperPasses();
    ReachableInv(E5());
    ReapStrandsIff(E5(), 2);
  }

  /** A join is refused as a deadlock although nobody waits for anybody: thread 1 once waited for a thread whose id the
      caller has now. */
  lemma StaleWaitIdRefusesJoin()
    ensures var s := Stale();
            && Reachable(s) && Wellformed(s) && 1 in s.threads && s.threads[1].id in s.table
            && JoinCode(s, 1) == EDEADLK && forall p, q :: !WaitsFor(s, p, q)
  {
    hide Steps, Reachable, E5, E6, E7, E8;
    SecondReaperPasses();
    Step6();
    ReachMore(E5(), YieldCall, E6());
    Step7();
    ReachMore(E6(), DoReap, E7());
    Step8();
    ReachMore(E7(), Step.Create(3), E8());
    Step9();
    ReachMore(E8(), YieldCall, E9());
    Step10();
    ReachMore(E9(), YieldCall, Stale());
  }
}
