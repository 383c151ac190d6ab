/** No thread starves: a bound on the handler invocations until a ready thread is dispatched
    (asst1/my_pthread.c:219-267). */
module SchedLive {
  import opened Sched
  import opened SchedInv
  import opened SchedRuns

  /** How many steps up from level c to level p, cyclically: between 1 and 5. */
  function Distance(c: int, p: int): int
    requires 0 <= c < 5 && 0 <= p < 5
  {
    if p > c then p - c else p + 5 - c
  }

  /** Handler invocations a thread at level l keeps the processor for, at most. */
  function Quota(l: int): (r: int)
    ensures 1 <= r <= 5
  {
    l % 5 + 1
  }

  /** Handler invocations that the levels strictly between c and p can use up, one thread each. */
  function Gap(c: int, p: int): int
    requires 0 <= c < 5 && 0 <= p < 5
  {
    (if Distance(c, p) > 1 then Quota(c + 1) else 0) +
    (if Distance(c, p) > 2 then Quota(c + 2) else 0) +
    (if Distance(c, p) > 3 then Quota(c + 3) else 0) +
    (if Distance(c, p) > 4 then Quota(c + 4) else 0)
  }

  /** Handler invocations after which the running thread has given up the processor. */
  function Left(s: State): int
    requires s.running in s.threads
  {
    if Me(s).status == Active && Me(s).intervals < s.level then s.level - Me(s).intervals + 1 else 1
  }

  /** Handler invocations within which the thread at index k of queue p is dispatched. */
  function Bound(s: State, p: int, k: int): int
    requires Wellformed(s) && 0 <= p < 5
  {
    Left(s) + Gap(s.level, p) + 15 * k
  }

  /** The bound is at most 15 for each place in the queue, counting its own. */
  lemma BoundIsSmall(s: State, p: int, k: int)
    requires Inv(s) && Wellformed(s) && 0 <= p < 5 && 0 <= k
    ensures 1 <= Bound(s, p, k) <= 15 * (k + 1)
  {
    hide Inv, Gap, Left;
    LeftIsSmall(s);
    GapIsSmall(s.level, p);
  }

  lemma LeftIsSmall(s: State)
    requires Inv(s)
    ensures 0 <= s.level < 5 && 1 <= Left(s) <= s.level + 1
  {
    hide Locks, Joins, Ids;
  }

  lemma GapIsSmall(c: int, p: int)
    requires 0 <= c < 5 && 0 <= p < 5
    ensures 0 <= Gap(c, p) <= 15 - (c + 1) && Gap(p, p) == 15 - (p + 1)
  {
    hide Quota;
    QuotaSum(c);
    QuotaSum(p);
  }

  /** A full round of the other levels takes 15 less the share of level c. */
  lemma QuotaSum(c: int)
    requires 0 <= c < 5
    ensures Quota(c + 1) + Quota(c + 2) + Quota(c + 3) + Quota(c + 4) == 15 - (c + 1)
  {
  }

  /** The next non-empty level does not pass over level p, and what lies between gets smaller by what it may use. */
  lemma LevelAdvances(ready: seq<seq<Ptr>>, c: int, p: int)
    requires |ready| == 5 && 0 <= c < 5 && 0 <= p < 5 && ready[p] != []
    ensures SomeReady(ready)
    ensures var l := FirstLevel(ready, (c + 1) % 5);
            (l == p || Gap(l, p) + l + 1 <= Gap(c, p)) && 0 <= Gap(c, p)
  {
    hide SomeReady, Gap, FirstLevel, Distance;
    SomeLevel(ready, p);
    var d := StepsUp(ready, c, p);
    GapShrinks(c, p, d);
  }

  /** How many steps up from c the first non-empty level after c is: not more than to p. */
  lemma StepsUp(ready: seq<seq<Ptr>>, c: int, p: int) returns (d: int)
    requires |ready| == 5 && 0 <= c < 5 && 0 <= p < 5 && ready[p] != [] && SomeReady(ready)
    ensures 1 <= d <= Distance(c, p) && FirstLevel(ready, (c + 1) % 5) == (c + d) % 5
  {
    hide SomeReady;
    d := if ready[(c + 1) % 5] != [] then 1 else if ready[(c + 2) % 5] != [] then 2
         else if ready[(c + 3) % 5] != [] then 3 else if ready[(c + 4) % 5] != [] then 4 else 5;
    Wraps(c);
    assert (c + Distance(c, p)) % 5 == p;
  }

  lemma Wraps(c: int)
    ensures ((c + 1) % 5 + 1) % 5 == (c + 2) % 5 && ((c + 1) % 5 + 2) % 5 == (c + 3) % 5
    ensures ((c + 1) % 5 + 3) % 5 == (c + 4) % 5 && ((c + 1) % 5 + 4) % 5 == (c + 5) % 5
  {
  }

  /** A level d steps up from c, not beyond p, leaves less between itself and p. */
  lemma GapShrinks(c: int, p: int, d: int)
    requires 0 <= c < 5 && 0 <= p < 5 && 1 <= d <= Distance(c, p)
    ensures var l := (c + d) % 5;
            0 <= Gap(c, p) && if d == Distance(c, p) then l == p else Gap(l, p) + l + 1 <= Gap(c, p)
  {
    hide Gap;
    DistanceShrinks(c, p, d);
    GapIsSmall(c, p);
    if d < Distance(c, p) {
      QuotaCycles(c + d);
      GapBetween(c, p, d, (c + d) % 5);
    }
  }

  lemma GapBetween(c: int, p: int, d: int, l: int)
    requires 0 <= c < 5 && 0 <= p < 5 && 0 <= l < 5 && 1 <= d < Distance(c, p) <= 5 && Distance(l, p) == Distance(c, p) - d
    requires l + 1 == Quota(c + d) && Quota(l + 1) == Quota(c + d + 1)
    requires Quota(l + 2) == Quota(c + d + 2) && Quota(l + 3) == Quota(c + d + 3)
    ensures Gap(l, p) + l + 1 <= Gap(c, p)
  {
    hide Distance, Quota;
  }

  lemma DistanceShrinks(c: int, p: int, d: int)
    requires 0 <= c < 5 && 0 <= p < 5 && 1 <= d <= Distance(c, p)
    ensures var l := (c + d) % 5;
            0 <= l < 5 && Distance(c, p) <= 5 && if d == Distance(c, p) then l == p else Distance(l, p) == Distance(c, p) - d
  {
    assert (c + d) % 5 == if c + d < 5 then c + d else c + d - 5;
  }

  lemma QuotaCycles(l: int)
    ensures Quota(l) == l % 5 + 1 && Quota(l % 5 + 1) == Quota(l + 1)
    ensures Quota(l % 5 + 2) == Quota(l + 2) && Quota(l % 5 + 3) == Quota(l + 3)
  {
  }

  lemma SomeLevel(ready: seq<seq<Ptr>>, p: int)
    requires 0 <= p < |ready| && ready[p] != []
    ensures SomeReady(ready)
  {
  }

  /** Thread t is at index k of queue p. */
  predicate Queued(s: State, p: int, k: int, t: Ptr) {
    |s.ready| == 5 && 0 <= p < 5 && 0 <= k < |s.ready[p]| && s.ready[p][k] == t
  }

  /** One handler invocation brings a queued thread closer: it runs, or its bound falls. */
  lemma HandlerAdvances(s: State, p: int, k: int, t: Ptr)
    requires CanHandle(s) && Wellformed(s) && Queued(s, p, k, t)
    requires s.runAt == 0 && Wellformed(Handler(s))
    requires Me(Handler(s)).intervals >= 0
    requires Me(s).status == Active ==> Me(s).intervals >= 0
    ensures var s' := Handler(s);
            || s'.running == t
            || (exists k' :: Queued(s', p, k', t) && k' <= k && Bound(s', p, k') < Bound(s, p, k))
  {
    hide Gap, Requeue, FirstLevel, SomeReady;
    var s' := Handler(s);
    if Continues(s) {
      assert Queued(s', p, k, t);
    } else {
      var r := Requeue(s).ready;
      RequeueExtends(s, p);
      assert r[p][k] == t;
      LevelAdvances(r, s.level, p);
      GapIsSmall(p, p);
      var l := s'.level;
      if l == p {
        if k > 0 { assert Queued(s', p, k - 1, t); }
      } else {
        assert Queued(s', p, k, t);
      }
    }
  }

  /** Putting a thread away only adds to the back of a queue. */
  lemma RequeueExtends(s: State, p: int)
    requires Wellformed(s) && 0 <= p < 5
    ensures |Requeue(s).ready| == 5 && s.ready[p] <= Requeue(s).ready[p] && Requeue(s).level == s.level && Requeue(s).runAt == s.runAt
  {
  }

  /** Steps during which the handler runs: the timer, and the calls that raise the alarm. */
  predicate Invokes(s: State, step: Step)
    requires Wellformed(s) && Enabled(s, step)
  {
    match step
    case Tick => true
    case YieldCall => true
    case Exit => true
    case Join(t) => JoinCode(s, t).OK? && s.threads[t].id !in s.done
    case Lock(m) => LockBlocks(s, m)
    case _ => false
  }

  /** The state in which such a step enters the handler. */
  function AtHandler(s: State, step: Step): (s1: State)
    requires Wellformed(s) && Enabled(s, step) && Invokes(s, step)
    ensures CanHandle(s1) && Next(s, step) == Handler(s1)
    ensures s1.ready == s.ready && s1.level == s.level && s1.runAt == s.runAt && s1.running == s.running
    ensures s1.running in s1.threads && Left(s1) <= Left(s) && Me(s1).intervals == Me(s).intervals
  {
    match step
    case Tick => s
    case YieldCall => Yielding(s)
    case Exit => Exiting(s)
    case Join(t) => Joining(s, s.threads[t].id)
    case Lock(m) => Blocking(s, m)
  }

  /** Other steps leave a queued thread where it is, and the bound too. */
  lemma QuietStep(s: State, step: Step, p: int, k: int, t: Ptr)
    requires Inv(s) && Wellformed(s) && Enabled(s, step) && !Invokes(s, step) && Queued(s, p, k, t)
    requires Wellformed(Next(s, step))
    ensures Queued(Next(s, step), p, k, t) && Bound(Next(s, step), p, k) == Bound(s, p, k)
  {
    hide Queues, Waiters, Owners, Joins, Ids, Gap, Handler, Dispatch, Requeue;
    match step
    case Create(n) =>
    case Unlock(m) => if s.mutexes[m].queue != [] { FirstWaiter(s, m); }
    case Destroy(m) => if s.mutexes[m].user == None { DestroyedKeeps(s, m); }
    case _ =>
  }

  /** A step in which the handler runs brings a queued thread closer. */
  lemma LoudStep(s: State, step: Step, p: int, k: int, t: Ptr) returns (k': int)
    requires Inv(s) && Wellformed(s) && Enabled(s, step) && Invokes(s, step) && Queued(s, p, k, t)
    ensures var s' := Next(s, step);
            || s'.running == t
            || (Wellformed(s') && Queued(s', p, k', t) && Bound(s', p, k') < Bound(s, p, k))
  {
    hide Locks, Joins, Ids, Gap, Handler, Next, Possible, Orderly, AtHandler;
    var s1, s' := AtHandler(s, step), Next(s, step);
    StepKeeps(s, step);
    InvWellformed(s');
    HandlerAdvances(s1, p, k, t);
    k' := k;
    if s'.running != t {
      k' :| Queued(s', p, k', t) && k' <= k && Bound(s', p, k') < Bound(s1, p, k);
    }
  }

  /** How often the handler runs in a run. */
  ghost function HandlerRuns(states: seq<State>, steps: seq<Step>): nat
    requires IsRun(states, steps)
    decreases |steps|
  {
    if steps == [] then 0
    else
      assert IsRun(states[1..], steps[1..]);
      (if Invokes(states[0], steps[0]) then 1 else 0) + HandlerRuns(states[1..], steps[1..])
  }

  lemma {:induction false} DispatchedWithinBound(states: seq<State>, steps: seq<Step>, p: int, k: int, t: Ptr)
    requires IsRun(states, steps) && Inv(states[0]) && Wellformed(states[0]) && Queued(states[0], p, k, t)
    requires HandlerRuns(states, steps) >= Bound(states[0], p, k)
    ensures exists i :: 0 < i <= |steps| && states[i].running == t
    decreases |steps|
  {
    hide Inv, Enabled, Wellformed, Next, Invokes, Queued, Bound;
    BoundIsSmall(states[0], p, QueuedIndex(states[0], p, k, t));
    var s, step, s' := states[0], steps[0], states[1];
    StepKeeps(s, step);
    InvWellformed(s');
    var k1 := k;
    if Invokes(s, step) {
      k1 := LoudStep(s, step, p, k, t);
      if s'.running == t { return; }
    } else {
      QuietStep(s, step, p, k, t);
    }
    assert IsRun(states[1..], steps[1..]);
    DispatchedWithinBound(states[1..], steps[1..], p, k1, t);
    var i :| 0 < i <= |steps[1..]| && states[1..][i].running == t;
    assert states[i + 1].running == t;
  }

  function QueuedIndex(s: State, p: int, k: int, t: Ptr): (r: nat)
    requires Queued(s, p, k, t)
    ensures r == k && 0 <= p < 5
  {
    k
  }

  /** Starvation freedom: a thread at index k of its ready queue is dispatched within 15 (k + 1) handler invocations,
      whatever the threads do. */
  lemma NoStarvation(states: seq<State>, steps: seq<Step>, p: int, k: int, t: Ptr)
    requires IsRun(states, steps) && Inv(states[0]) && Queued(states[0], p, k, t)
    requires HandlerRuns(states, steps) >= 15 * (k + 1)
    ensures exists i :: 0 < i <= |steps| && states[i].running == t
  {
    InvWellformed(states[0]);
    BoundIsSmall(states[0], p, k);
    DispatchedWithinBound(states, steps, p, k, t);
  }
}
