/** The page descriptors and the lists that thread them together, as values (asst2/my_pthread.c:106-284). */
module PageLists {

  const NUM_PAGES: nat := 256

  const NULL: int := -1

  /** Where a descriptor is: free, or at one index of the list of one thread. */
  datatype Spot = Free | In(t: int, i: int)

  /** page_data with page_list and num_pages of every thread; `lists` and `spot` are the abstract view of the rest. */
  datatype Pages = Pages(next: seq<int>, prev: seq<int>, free: seq<bool>, more: seq<bool>,
                         heads: seq<int>, nums: seq<int>, lists: seq<seq<int>>, spot: seq<Spot>)

  predicate Shape(m: Pages) {
    && |m.next| == |m.prev| == |m.free| == |m.more| == |m.spot| == NUM_PAGES
    && |m.heads| == |m.nums| == |m.lists|
  }

  /** The neighbours of element i of a list. */
  function After(l: seq<int>, i: int): int {
    if 0 <= i && i + 1 < |l| then l[i + 1] else NULL
  }

  function Before(l: seq<int>, i: int): int {
    if 0 < i <= |l| then l[i - 1] else NULL
  }

  function Last(l: seq<int>): int {
    Before(l, |l|)
  }

  /** The list l is linked forwards and backwards and ends with NULL on both sides. */
  predicate Linked(next: seq<int>, prev: seq<int>, l: seq<int>) {
    forall i :: 0 <= i < |l| ==>
      && 0 <= l[i] < |next| && l[i] < |prev|
      && next[l[i]] == After(l, i)
      && prev[l[i]] == Before(l, i)
  }

  /** The descriptors not free are exactly those in the lists, each at one place; so lists are disjoint and acyclic. */
  predicate Placed(lists: seq<seq<int>>, spot: seq<Spot>) {
    && (forall t, i :: 0 <= t < |lists| && 0 <= i < |lists[t]| ==> 0 <= lists[t][i] < |spot| && spot[lists[t][i]] == In(t, i))
    && (forall d :: 0 <= d < |spot| && spot[d].In? ==>
          0 <= spot[d].t < |lists| && 0 <= spot[d].i < |lists[spot[d].t]| && lists[spot[d].t][spot[d].i] == d)
  }

  ghost predicate Inv(m: Pages) {
    && Shape(m)
    && Placed(m.lists, m.spot)
    && (forall d :: 0 <= d < NUM_PAGES ==> (m.free[d] <==> m.spot[d] == Free))
    && (forall t :: 0 <= t < |m.lists| ==> Linked(m.next, m.prev, m.lists[t]))
    && (forall t :: 0 <= t < |m.lists| ==> m.heads[t] == (if m.lists[t] == [] then NULL else m.lists[t][0]))
    && (forall t :: 0 <= t < |m.lists| ==> m.nums[t] == |m.lists[t]|)
    && (forall t :: 0 <= t < |m.lists| && m.lists[t] != [] ==> !m.more[m.lists[t][|m.lists[t]| - 1]])
  }

  // ---------------------------------------------------------------- allocating

  /** The first n free descriptors, in order. */
  predicate FirstFree(free: seq<bool>, run: seq<int>) {
    && (forall i :: 0 <= i < |run| ==> 0 <= run[i] < |free| && free[run[i]])
    && (forall i, j :: 0 <= i < j < |run| ==> run[i] < run[j])
    && (forall d :: 0 <= d < |free| && free[d] && d !in run ==> forall i :: 0 <= i < |run| ==> run[i] < d)
  }

  /** Spots once `run` was appended to the list of thread t. */
  function Occupied(spot: seq<Spot>, t: int, at: int, run: seq<int>): (r: seq<Spot>)
    requires forall i :: 0 <= i < |run| ==> 0 <= run[i] < |spot|
    ensures |r| == |spot|
  {
    if run == [] then spot
    else
      var n := |run| - 1;
      Occupied(spot, t, at, run[..n])[run[n] := In(t, at + n)]
  }

  lemma {:induction false} OccupiedAt(spot: seq<Spot>, t: int, at: int, run: seq<int>)
    requires forall i :: 0 <= i < |run| ==> 0 <= run[i] < |spot|
    requires forall i, j :: 0 <= i < j < |run| ==> run[i] != run[j]
    ensures forall i :: 0 <= i < |run| ==> Occupied(spot, t, at, run)[run[i]] == In(t, at + i)
    ensures forall d :: 0 <= d < |spot| && d !in run ==> Occupied(spot, t, at, run)[d] == spot[d]
  {
    if run != [] {
      var n := |run| - 1;
      OccupiedAt(spot, t, at, run[..n]);
      assert run == run[..n] + [run[n]];
    }
  }

  /** What page_malloc does when it succeeds: the run is linked to the end of the caller's list, and `more` is set on all
      of it but the last. */
  ghost predicate Allocates(m: Pages, t: int, run: seq<int>, m': Pages)
    requires Shape(m) && 0 <= t < |m.lists|
  {
    && Shape(m') && |m'.lists| == |m.lists|
    && run != [] && (forall i :: 0 <= i < |run| ==> 0 <= run[i] < NUM_PAGES)
    && m'.lists == m.lists[t := m.lists[t] + run]
    && m'.spot == Occupied(m.spot, t, |m.lists[t]|, run)
    && m'.heads == m.heads[t := if m.lists[t] == [] then run[0] else m.heads[t]]
    && m'.nums == m.nums[t := m.nums[t] + |run|]
    && (forall i :: 0 <= i < |run| ==>
          && !m'.free[run[i]] && (m'.more[run[i]] <==> i + 1 < |run|)
          && m'.next[run[i]] == After(run, i)
          && m'.prev[run[i]] == (if i == 0 then Last(m.lists[t]) else Before(run, i)))
    && (forall d :: 0 <= d < NUM_PAGES && d !in run ==>
          && m'.free[d] == m.free[d] && m'.more[d] == m.more[d] && m'.prev[d] == m.prev[d]
          && m'.next[d] == (if d == Last(m.lists[t]) then run[0] else m.next[d]))
  }

  /** The descriptors of the run are linked to each other and marked; no other descriptor changed. */
  predicate RunLinked(next: seq<int>, prev: seq<int>, free: seq<bool>, more: seq<bool>, run: seq<int>,
                      next': seq<int>, prev': seq<int>, free': seq<bool>, more': seq<bool>)
  {
    && |next| == |prev| == |free| == |more| == |next'| == |prev'| == |free'| == |more'| == NUM_PAGES
    && (forall i :: 0 <= i < |run| ==>
          && 0 <= run[i] < NUM_PAGES && !free'[run[i]] && (more'[run[i]] <==> i + 1 < |run|)
          && next'[run[i]] == After(run, i) && prev'[run[i]] == Before(run, i))
    && (forall d :: 0 <= d < NUM_PAGES && d !in run ==>
          free'[d] == free[d] && more'[d] == more[d] && next'[d] == next[d] && prev'[d] == prev[d])
  }

  /** The linked run is tied to the end of the list of t. */
  ghost predicate Spliced(m: Pages, t: int, run: seq<int>, next: seq<int>, prev: seq<int>,
                          next': seq<int>, prev': seq<int>, heads': seq<int>)
  {
    && |next| == |prev| == NUM_PAGES && 0 <= t < |m.lists| == |m.heads| && run != [] && 0 <= run[0] < NUM_PAGES
    && (m.lists[t] == [] ==> next' == next && prev' == prev && heads' == m.heads[t := run[0]])
    && (m.lists[t] != [] ==>
          var last := Last(m.lists[t]);
          && 0 <= last < NUM_PAGES
          && next' == next[last := run[0]] && prev' == prev[run[0] := last] && heads' == m.heads)
  }

  lemma LastOf(l: seq<int>)
    ensures Last(l) == (if l == [] then NULL else l[|l| - 1]) && Before(l, 0) == NULL
  {
  }

  lemma AfterAt(l: seq<int>, i: int)
    requires 0 <= i < |l|
    ensures After(l, i) == if i + 1 < |l| then l[i + 1] else NULL
  {
  }

  lemma InvShape(m: Pages)
    requires Inv(m)
    ensures Shape(m)
  {
  }

  lemma FirstFreeShape(free: seq<bool>, run: seq<int>)
    requires FirstFree(free, run)
    ensures forall i :: 0 <= i < |run| ==> 0 <= run[i] < |free|
    ensures forall i, j :: 0 <= i < j < |run| ==> run[i] != run[j]
  {
  }

  /** Linking the run and then splicing it is an allocation. */
  lemma Assemble(m: Pages, t: int, run: seq<int>, next: seq<int>, prev: seq<int>, m': Pages)
    requires Inv(m) && 0 <= t < |m.lists| && FirstFree(m.free, run) && run != []
    requires RunLinked(m.next, m.prev, m.free, m.more, run, next, prev, m'.free, m'.more)
    requires Spliced(m, t, run, next, prev, m'.next, m'.prev, m'.heads)
    requires m'.nums == m.nums[t := m.nums[t] + |run|] && m'.lists == m.lists[t := m.lists[t] + run]
    requires m'.spot == Occupied(m.spot, t, |m.lists[t]|, run)
    ensures Allocates(m, t, run, m')
  {
    hide Inv, FirstFree, Occupied, After, Before, Last;
    InvShape(m);
    FirstFreeShape(m.free, run);
    NotInRun(m, run, t);
    LastOf(m.lists[t]);
    LastOf(run);
  }

  lemma PlaceOne(lists: seq<seq<int>>, spot: seq<Spot>, t: int, d: int)
    requires Placed(lists, spot) && 0 <= t < |lists| && 0 <= d < |spot| && spot[d] == Free
    ensures Placed(lists[t := lists[t] + [d]], spot[d := In(t, |lists[t]|)])
  {
  }

  /** Appending free descriptors to one list keeps every descriptor at one place. */
  lemma {:induction false} PlaceRun(lists: seq<seq<int>>, spot: seq<Spot>, t: int, run: seq<int>)
    requires Placed(lists, spot) && 0 <= t < |lists|
    requires forall i :: 0 <= i < |run| ==> 0 <= run[i] < |spot| && spot[run[i]] == Free
    requires forall i, j :: 0 <= i < j < |run| ==> run[i] != run[j]
    ensures Placed(lists[t := lists[t] + run], Occupied(spot, t, |lists[t]|, run))
  {
    hide Placed;
    if run == [] {
      assert lists[t] + run == lists[t];
      assert lists[t := lists[t] + run] == lists;
    } else {
      var n := |run| - 1;
      var before, at := run[..n], |lists[t]|;
      PlaceRun(lists, spot, t, before);
      OccupiedAt(spot, t, at, before);
      var mid := lists[t := lists[t] + before];
      assert run[n] !in before;
      PlaceOne(mid, Occupied(spot, t, at, before), t, run[n]);
      assert mid[t] + [run[n]] == lists[t] + run;
      assert mid[t := lists[t] + run] == lists[t := lists[t] + run];
    }
  }

  lemma AllocatePlaced(m: Pages, t: int, run: seq<int>, m': Pages)
    requires Inv(m) && 0 <= t < |m.lists| && FirstFree(m.free, run) && Allocates(m, t, run, m')
    ensures Placed(m'.lists, m'.spot)
    ensures forall d :: 0 <= d < NUM_PAGES ==> (m'.free[d] <==> m'.spot[d] == Free)
  {
    hide Linked, Placed, Occupied, After, Before, Last;
    PlaceRun(m.lists, m.spot, t, run);
    OccupiedAt(m.spot, t, |m.lists[t]|, run);
  }

  lemma LinkedFrame(next: seq<int>, prev: seq<int>, l: seq<int>, next': seq<int>, prev': seq<int>)
    requires Linked(next, prev, l) && |next'| == |next| && |prev'| == |prev|
    requires forall i :: 0 <= i < |l| ==> next'[l[i]] == next[l[i]] && prev'[l[i]] == prev[l[i]]
    ensures Linked(next', prev', l)
  {
  }

  /** A linked list, and a linked run whose ends are tied to it, are one linked list. */
  lemma LinkedAppend(next: seq<int>, prev: seq<int>, l: seq<int>, next': seq<int>, prev': seq<int>, run: seq<int>)
    requires Linked(next, prev, l) && |next'| == |next| == |prev'| == |prev| && run != []
    requires forall i {:trigger l[i]} :: 0 <= i < |l| ==>
               && prev'[l[i]] == prev[l[i]]
               && next'[l[i]] == (if i + 1 < |l| then next[l[i]] else run[0])
    requires forall i :: 0 <= i < |run| ==>
               && 0 <= run[i] < |next'|
               && next'[run[i]] == After(run, i)
               && prev'[run[i]] == (if i == 0 then Last(l) else Before(run, i))
    ensures Linked(next', prev', l + run)
  {
    var l' := l + run;
    forall i | 0 <= i < |l'|
      ensures 0 <= l'[i] < |next'|
      ensures next'[l'[i]] == After(l', i)
      ensures prev'[l'[i]] == Before(l', i)
    {
      if i >= |l| {
        var j := i - |l|;
        assert l'[i] == run[j] && (i + 1 < |l'| ==> l'[i + 1] == run[j + 1]);
        assert i > 0 ==> l'[i - 1] == if j > 0 then run[j - 1] else l[|l| - 1];
      } else {
        assert l'[i] == l[i] && l'[i + 1] == if i + 1 < |l| then l[i + 1] else run[0];
      }
    }
  }

  lemma NotInRun(m: Pages, run: seq<int>, u: int)
    requires Inv(m) && FirstFree(m.free, run) && 0 <= u < |m.lists|
    ensures var l := m.lists[u]; forall i :: 0 <= i < |l| ==> 0 <= l[i] < NUM_PAGES && l[i] !in run
    ensures var l := m.lists[u]; forall i, j :: 0 <= i < j < |l| ==> l[i] != l[j]
  {
    hide Linked;
    var l := m.lists[u];
    forall i | 0 <= i < |l|
      ensures 0 <= l[i] < NUM_PAGES && l[i] !in run && m.spot[l[i]] == In(u, i)
    {
      assert m.spot[l[i]] == In(u, i) && !m.free[l[i]];
    }
  }

  /** Lists of different threads share no descriptor. */
  lemma Apart(m: Pages, t: int, u: int)
    requires Inv(m) && 0 <= t < |m.lists| && 0 <= u < |m.lists| && t != u
    ensures forall i, j :: 0 <= i < |m.lists[t]| && 0 <= j < |m.lists[u]| ==> m.lists[t][i] != m.lists[u][j]
  {
    hide Linked;
    forall i, j | 0 <= i < |m.lists[t]| && 0 <= j < |m.lists[u]|
      ensures m.lists[t][i] != m.lists[u][j]
    {
      assert m.spot[m.lists[t][i]] == In(t, i) && m.spot[m.lists[u][j]] == In(u, j);
    }
  }

  lemma AllocateLinked(m: Pages, t: int, run: seq<int>, m': Pages, u: int)
    requires Inv(m) && 0 <= t < |m.lists| && FirstFree(m.free, run) && Allocates(m, t, run, m') && 0 <= u < |m.lists|
    ensures Linked(m'.next, m'.prev, m'.lists[u])
  {
    hide Linked, Occupied, Placed, FirstFree, After, Before, Last;
    var l := m.lists[u];
    LastOf(m.lists[t]);
    NotInRun(m, run, u);
    if u == t {
      assert forall i, j :: 0 <= i < j < |l| ==> l[i] != l[j];
      LinkedAppend(m.next, m.prev, l, m'.next, m'.prev, run);
    } else {
      Apart(m, t, u);
      LinkedFrame(m.next, m.prev, l, m'.next, m'.prev);
    }
  }

  /** page_malloc keeps the invariant. */
  lemma AllocateKeeps(m: Pages, t: int, run: seq<int>, m': Pages)
    requires Inv(m) && 0 <= t < |m.lists| && FirstFree(m.free, run) && Allocates(m, t, run, m')
    ensures Inv(m')
  {
    hide Linked, Placed, After, Before, Last, Occupied;
    AllocatePlaced(m, t, run, m');
    forall u | 0 <= u < |m.lists|
      ensures Linked(m'.next, m'.prev, m'.lists[u])
    {
      AllocateLinked(m, t, run, m', u);
    }
    AllocateEnds(m, t, run, m');
  }

  /** The last page of every list ends its allocation. */
  lemma AllocateEnds(m: Pages, t: int, run: seq<int>, m': Pages)
    requires Inv(m) && 0 <= t < |m.lists| && FirstFree(m.free, run) && Allocates(m, t, run, m')
    ensures forall u :: 0 <= u < |m.lists| && m'.lists[u] != [] ==>
              0 <= m'.lists[u][|m'.lists[u]| - 1] < NUM_PAGES && !m'.more[m'.lists[u][|m'.lists[u]| - 1]]
  {
    hide Inv, FirstFree, Before, After, Last, Occupied;
    InvShape(m);
    forall u | 0 <= u < |m.lists| && m'.lists[u] != []
      ensures 0 <= m'.lists[u][|m'.lists[u]| - 1] < NUM_PAGES && !m'.more[m'.lists[u][|m'.lists[u]| - 1]]
    {
      if u == t {
        assert m'.lists[t][|m'.lists[t]| - 1] == run[|run| - 1];
      } else {
        NotInRun(m, run, u);
        EndOf(m, u);
      }
    }
  }

  lemma EndOf(m: Pages, u: int)
    requires Inv(m) && 0 <= u < |m.lists| && m.lists[u] != []
    ensures Shape(m) && var last := m.lists[u][|m.lists[u]| - 1]; 0 <= last < NUM_PAGES && !m.more[last]
  {
    hide Linked;
  }

  // ---------------------------------------------------------------- freeing

  /** A list without its n elements from index a on. */
  function Cut(l: seq<int>, a: int, n: int): seq<int>
    requires 0 <= a <= a + n <= |l|
  {
    l[..a] + l[a + n..]
  }

  function Moved(o: Spot, t: int, a: int, n: int): Spot {
    if o.In? && o.t == t && o.i >= a then (if o.i < a + n then Free else In(t, o.i - n)) else o
  }

  /** Spots once n elements from index a on left the list of thread t. */
  function Vacated(spot: seq<Spot>, t: int, a: int, n: int): (r: seq<Spot>)
    ensures |r| == |spot|
    ensures forall d :: 0 <= d < |spot| ==> r[d] == Moved(spot[d], t, a, n)
  {
    seq(|spot|, d requires 0 <= d < |spot| => Moved(spot[d], t, a, n))
  }

  lemma CutForward(lists: seq<seq<int>>, spot: seq<Spot>, t: int, a: int, n: int, u: int, i: int)
    requires Placed(lists, spot) && 0 <= t < |lists| && 0 <= a && 0 <= n && a + n <= |lists[t]|
    requires var lists' := lists[t := Cut(lists[t], a, n)]; 0 <= u < |lists'| && 0 <= i < |lists'[u]|
    ensures var d := lists[t := Cut(lists[t], a, n)][u][i]; 0 <= d < |spot| && Vacated(spot, t, a, n)[d] == In(u, i)
  {
    var k := if u == t && i >= a then i + n else i;
    assert lists[t := Cut(lists[t], a, n)][u][i] == lists[u][k];
  }

  lemma CutBackward(lists: seq<seq<int>>, spot: seq<Spot>, t: int, a: int, n: int, d: int)
    requires Placed(lists, spot) && 0 <= t < |lists| && 0 <= a && 0 <= n && a + n <= |lists[t]|
    requires 0 <= d < |spot| && Vacated(spot, t, a, n)[d].In?
    ensures var lists', o := lists[t := Cut(lists[t], a, n)], Vacated(spot, t, a, n)[d];
            0 <= o.t < |lists'| && 0 <= o.i < |lists'[o.t]| && lists'[o.t][o.i] == d
  {
    assert lists[spot[d].t][spot[d].i] == d;
  }

  lemma MakePlaced(lists: seq<seq<int>>, spot: seq<Spot>)
    requires forall t, i :: 0 <= t < |lists| && 0 <= i < |lists[t]| ==> 0 <= lists[t][i] < |spot| && spot[lists[t][i]] == In(t, i)
    requires forall d :: 0 <= d < |spot| && spot[d].In? ==>
               0 <= spot[d].t < |lists| && 0 <= spot[d].i < |lists[spot[d].t]| && lists[spot[d].t][spot[d].i] == d
    ensures Placed(lists, spot)
  {
  }

  lemma CutPlaced(lists: seq<seq<int>>, spot: seq<Spot>, t: int, a: int, n: int)
    requires Placed(lists, spot) && 0 <= t < |lists| && 0 <= a && 0 <= n && a + n <= |lists[t]|
    ensures Placed(lists[t := Cut(lists[t], a, n)], Vacated(spot, t, a, n))
  {
    hide Vacated, Placed, Cut, Moved;
    var lists', spot' := lists[t := Cut(lists[t], a, n)], Vacated(spot, t, a, n);
    forall u, i | 0 <= u < |lists'| && 0 <= i < |lists'[u]|
      ensures 0 <= lists'[u][i] < |spot'| && spot'[lists'[u][i]] == In(u, i)
    {
      CutForward(lists, spot, t, a, n, u, i);
    }
    forall d | 0 <= d < |spot'| && spot'[d].In?
      ensures 0 <= spot'[d].t < |lists'| && 0 <= spot'[d].i < |lists'[spot'[d].t]| && lists'[spot'[d].t][spot'[d].i] == d
    {
      CutBackward(lists, spot, t, a, n, d);
    }
    MakePlaced(lists', spot');
  }

  /** The allocation that starts at index a of the list of t is n pages long, and lies between two others. */
  ghost predicate Interior(m: Pages, t: int, a: int, n: int)
    requires Shape(m) && 0 <= t < |m.lists|
  {
    var l := m.lists[t];
    && 0 < a && 0 < n && a + n < |l|
    && (forall i :: 0 <= i < |l| ==> 0 <= l[i] < NUM_PAGES)
    && !m.more[l[a - 1]]
    && (forall i :: a <= i < a + n - 1 ==> m.more[l[i]])
    && !m.more[l[a + n - 1]]
  }

  /** What page_free does: exactly the run leaves the list and becomes free. */
  ghost predicate Releases(m: Pages, t: int, a: int, n: int, m': Pages)
    requires Shape(m) && 0 <= t < |m.lists|
  {
    var l := m.lists[t];
    && Interior(m, t, a, n)
    && Shape(m') && |m'.lists| == |m.lists|
    && m'.lists == m.lists[t := Cut(l, a, n)]
    && m'.spot == Vacated(m.spot, t, a, n)
    && m'.heads == m.heads && m'.nums == m.nums[t := m.nums[t] - n]
    && m'.more == m.more
    && m'.next == m.next[l[a - 1] := l[a + n]]
    && m'.prev == m.prev[l[a + n] := l[a - 1]]
    && (forall d :: 0 <= d < NUM_PAGES ==>
          (m'.free[d] <==> m.free[d] || (m.spot[d].In? && m.spot[d].t == t && a <= m.spot[d].i < a + n)))
  }

  lemma CutLinked(next: seq<int>, prev: seq<int>, l: seq<int>, a: int, n: int)
    requires Linked(next, prev, l) && |next| == |prev| && 0 < a && 0 < n && a + n < |l|
    requires forall i, j :: 0 <= i < j < |l| ==> l[i] != l[j]
    ensures Linked(next[l[a - 1] := l[a + n]], prev[l[a + n] := l[a - 1]], Cut(l, a, n))
  {
    var l', next', prev' := Cut(l, a, n), next[l[a - 1] := l[a + n]], prev[l[a + n] := l[a - 1]];
    forall i | 0 <= i < |l'|
      ensures 0 <= l'[i] < |next'|
      ensures next'[l'[i]] == After(l', i)
      ensures prev'[l'[i]] == Before(l', i)
    {
      CutCell(next, prev, l, a, n, i);
    }
  }

  lemma Neighbours(l: seq<int>, i: int)
    requires 0 <= i < |l|
    ensures After(l, i) == (if i + 1 < |l| then l[i + 1] else NULL) && Before(l, i) == if i > 0 then l[i - 1] else NULL
  {
  }

  lemma CutCell(next: seq<int>, prev: seq<int>, l: seq<int>, a: int, n: int, i: int)
    requires Linked(next, prev, l) && |next| == |prev| && 0 < a && 0 < n && a + n < |l| && 0 <= i < |l| - n
    requires forall i, j :: 0 <= i < j < |l| ==> l[i] != l[j]
    ensures var l', next', prev' := Cut(l, a, n), next[l[a - 1] := l[a + n]], prev[l[a + n] := l[a - 1]];
            && 0 <= l'[i] < |next'|
            && next'[l'[i]] == After(l', i)
            && prev'[l'[i]] == Before(l', i)
  {
    hide After, Before;
    var l', k := Cut(l, a, n), if i < a then i else i + n;
    assert l'[i] == l[k];
    assert i + 1 < |l'| ==> l'[i + 1] == l[if i + 1 < a then i + 1 else i + 1 + n];
    assert i > 0 ==> l'[i - 1] == l[if i - 1 < a then i - 1 else i - 1 + n];
    Neighbours(l, k);
    Neighbours(l', i);
  }

  lemma ReleaseLinked(m: Pages, t: int, a: int, n: int, m': Pages, u: int)
    requires Inv(m) && 0 <= t < |m.lists| && Releases(m, t, a, n, m') && 0 <= u < |m.lists|
    ensures Linked(m'.next, m'.prev, m'.lists[u])
  {
    hide Linked, Placed, Vacated;
    NotInRun(m, [], u);
    if u == t {
      CutLinked(m.next, m.prev, m.lists[t], a, n);
    } else {
      Apart(m, t, u);
      LinkedFrame(m.next, m.prev, m.lists[u], m'.next, m'.prev);
    }
  }

  /** page_free keeps the invariant. */
  lemma ReleaseKeeps(m: Pages, t: int, a: int, n: int, m': Pages)
    requires Inv(m) && 0 <= t < |m.lists| && Releases(m, t, a, n, m')
    ensures Inv(m')
  {
    hide Linked, Placed, Vacated;
    CutPlaced(m.lists, m.spot, t, a, n);
    forall u | 0 <= u < |m.lists|
      ensures Linked(m'.next, m'.prev, m'.lists[u])
    {
      ReleaseLinked(m, t, a, n, m', u);
    }
    InRange(m');
    assert m'.lists[t][|m'.lists[t]| - 1] == m.lists[t][|m.lists[t]| - 1];
  }

  lemma InRange(m: Pages)
    requires Placed(m.lists, m.spot) && |m.spot| == NUM_PAGES
    ensures forall u, i :: 0 <= u < |m.lists| && 0 <= i < |m.lists[u]| ==> 0 <= m.lists[u][i] < NUM_PAGES
  {
  }

  // ---------------------------------------------------------------- the allocations of a thread

  function Extended(r: seq<seq<int>>, d: int, joins: bool): seq<seq<int>> {
    if joins && r != [] then r[..|r| - 1] + [r[|r| - 1] + [d]] else r + [[d]]
  }

  /** The allocations a list is made of: an allocation goes on as long as `more` is set. */
  function Allocations(l: seq<int>, more: seq<bool>): (r: seq<seq<int>>)
    requires forall i :: 0 <= i < |l| ==> 0 <= l[i] < |more|
    ensures l == [] <==> r == []
  {
    if l == [] then [] else
    var n := |l| - 1;
    Extended(Allocations(l[..n], more), l[n], n > 0 && more[l[n - 1]])
  }

  lemma {:induction false} AllocationsFrame(l: seq<int>, more: seq<bool>, more': seq<bool>)
    requires |more'| == |more| && forall i :: 0 <= i < |l| ==> 0 <= l[i] < |more| && more'[l[i]] == more[l[i]]
    ensures Allocations(l, more') == Allocations(l, more)
  {
    if l != [] {
      AllocationsFrame(l[..|l| - 1], more, more');
    }
  }

  /** A run whose flags are set on all but its last page is one allocation. */
  lemma {:induction false} OneAllocation(run: seq<int>, more: seq<bool>)
    requires run != [] && (forall i :: 0 <= i < |run| ==> 0 <= run[i] < |more|)
    requires forall i :: 0 <= i < |run| - 1 ==> more[run[i]]
    ensures Allocations(run, more) == [run]
  {
    var n := |run| - 1;
    assert run == run[..n] + [run[n]];
    if n > 0 {
      OneAllocation(run[..n], more);
    } else {
      assert run == [run[0]];
    }
  }

  /** A list splits where `more` is not set. */
  lemma {:induction false} AllocationsSplit(l: seq<int>, k: seq<int>, more: seq<bool>)
    requires (forall i :: 0 <= i < |l| ==> 0 <= l[i] < |more|) && (forall i :: 0 <= i < |k| ==> 0 <= k[i] < |more|)
    requires l == [] || !more[l[|l| - 1]]
    ensures Allocations(l + k, more) == Allocations(l, more) + Allocations(k, more)
  {
    hide Extended, Allocations;
    if k == [] {
      assert l + k == l;
    } else {
      var n := |k| - 1;
      AllocationsSplit(l, k[..n], more);
      Snoc(k[..n], k[n], more);
      Snoc(l + k[..n], k[n], more);
      assert k[..n] + [k[n]] == k && l + k[..n] + [k[n]] == l + k;
      ExtendLast(Allocations(l, more), Allocations(k[..n], more), k[n]);
    }
  }

  lemma Snoc(l: seq<int>, d: int, more: seq<bool>)
    requires (forall i :: 0 <= i < |l| ==> 0 <= l[i] < |more|) && 0 <= d < |more|
    ensures Allocations(l + [d], more) == Extended(Allocations(l, more), d, l != [] && more[l[|l| - 1]])
  {
    assert (l + [d])[..|l|] == l;
  }

  lemma ExtendLast(r: seq<seq<int>>, s: seq<seq<int>>, d: int)
    ensures Extended(r + s, d, false) == r + Extended(s, d, false)
    ensures s != [] ==> Extended(r + s, d, true) == r + Extended(s, d, true)
  {
  }

  predicate InTable(l: seq<int>) {
    forall i :: 0 <= i < |l| ==> 0 <= l[i] < NUM_PAGES
  }

  /** The allocations of thread u. */
  function RunsOf(m: Pages, u: int): seq<seq<int>> {
    if 0 <= u < |m.lists| && |m.more| == NUM_PAGES && InTable(m.lists[u]) then Allocations(m.lists[u], m.more) else []
  }

  predicate WithoutOne(all: seq<seq<int>>, one: seq<int>, rest: seq<seq<int>>) {
    exists k :: 0 <= k < |all| && all[k] == one && rest == all[..k] + all[k + 1..]
  }

  lemma RemoveMiddle(before: seq<seq<int>>, one: seq<int>, after: seq<seq<int>>)
    ensures WithoutOne(before + [one] + after, one, before + after)
  {
    var all := before + [one] + after;
    assert all[|before|] == one && all[..|before|] == before && all[|before| + 1..] == after;
  }

  /** page_malloc appends one allocation to those of the caller, and leaves those of the other threads. */
  lemma AllocateAdds(m: Pages, t: int, run: seq<int>, m': Pages, u: int)
    requires Inv(m) && 0 <= t < |m.lists| && FirstFree(m.free, run) && Allocates(m, t, run, m') && 0 <= u < |m.lists|
    ensures RunsOf(m', u) == RunsOf(m, u) + if u == t then [run] else []
  {
    hide Inv, FirstFree, After, Before, Last, Occupied, Allocations;
    InvShape(m);
    NotInRun(m, run, u);
    var l := m.lists[u];
    AllocationsFrame(l, m.more, m'.more);
    if u == t {
      if l != [] {
        EndOf(m, t);
      }
      AllocationsSplit(l, run, m'.more);
      OneAllocation(run, m'.more);
    }
  }

  /** page_free removes exactly one allocation of the caller, and leaves all others of all threads in order. */
  lemma ReleaseRemoves(m: Pages, t: int, a: int, n: int, m': Pages, u: int)
    requires Inv(m) && 0 <= t < |m.lists| && Releases(m, t, a, n, m') && 0 <= u < |m.lists|
    ensures if u == t then WithoutOne(RunsOf(m, t), m.lists[t][a..a + n], RunsOf(m', t)) else RunsOf(m', u) == RunsOf(m, u)
  {
    hide Inv, Allocations, Vacated, WithoutOne;
    InvShape(m);
    NotInRun(m, [], u);
    if u == t {
      CutRuns(m.lists[t], a, n, m.more);
    }
  }

  lemma CutRuns(l: seq<int>, a: int, n: int, more: seq<bool>)
    requires InTable(l) && |more| == NUM_PAGES && 0 < a && 0 < n && a + n < |l|
    requires !more[l[a - 1]] && (forall i :: a <= i < a + n - 1 ==> more[l[i]]) && !more[l[a + n - 1]]
    ensures InTable(Cut(l, a, n)) && WithoutOne(Allocations(l, more), l[a..a + n], Allocations(Cut(l, a, n), more))
  {
    hide Allocations, WithoutOne;
    var before, run, after := l[..a], l[a..a + n], l[a + n..];
    AllocationsSplit(before, after, more);
    AllocationsSplit(before + run, after, more);
    AllocationsSplit(before, run, more);
    OneAllocation(run, more);
    assert l == before + run + after;
    RemoveMiddle(Allocations(before, more), run, Allocations(after, more));
  }

  // ---------------------------------------------------------------- conservation

  function CountFree(free: seq<bool>): nat {
    if free == [] then 0 else CountFree(free[..|free| - 1]) + (if free[|free| - 1] then 1 else 0)
  }

  function Sum(nums: seq<int>): int {
    if nums == [] then 0 else Sum(nums[..|nums| - 1]) + nums[|nums| - 1]
  }

  /** Descriptors in the lists of the first k threads. */
  ghost function Held(spot: seq<Spot>, k: int): set<int> {
    set d | 0 <= d < |spot| && spot[d].In? && spot[d].t < k
  }

  lemma {:induction false} ElementsOf(l: seq<int>)
    requires forall i, j :: 0 <= i < j < |l| ==> l[i] != l[j]
    ensures |set i | 0 <= i < |l| :: l[i]| == |l|
  {
    if l != [] {
      var n := |l| - 1;
      ElementsOf(l[..n]);
      assert forall i :: 0 <= i < n ==> l[..n][i] == l[i];
      assert (set i | 0 <= i < |l| :: l[i]) == (set i | 0 <= i < |l[..n]| :: l[..n][i]) + {l[n]};
    }
  }

  lemma {:induction false} HeldSum(m: Pages, k: nat)
    requires Inv(m) && k <= |m.lists|
    ensures |Held(m.spot, k)| == Sum(m.nums[..k])
  {
    hide Linked, Placed;
    if k == 0 {
      HeldNone(m);
    } else {
      HeldSum(m, k - 1);
      NotInRun(m, [], k - 1);
      ElementsOf(m.lists[k - 1]);
      HeldMore(m, k);
      assert m.nums[..k][..k - 1] == m.nums[..k - 1];
    }
  }

  lemma HeldNone(m: Pages)
    requires Inv(m)
    ensures Held(m.spot, 0) == {}
  {
    hide Linked;
  }

  lemma HeldMore(m: Pages, k: nat)
    requires Inv(m) && 0 < k <= |m.lists|
    ensures var l := m.lists[k - 1]; var mine := set i | 0 <= i < |l| :: l[i];
            Held(m.spot, k) == Held(m.spot, k - 1) + mine && Held(m.spot, k - 1) !! mine
  {
    hide Linked, Placed;
    var l := m.lists[k - 1];
    var mine := set i | 0 <= i < |l| :: l[i];
    forall d
      ensures d in mine <==> 0 <= d < |m.spot| && m.spot[d].In? && m.spot[d].t == k - 1
    {
      Mine(m, k - 1, d);
    }
  }

  lemma Mine(m: Pages, t: int, d: int)
    requires Inv(m) && 0 <= t < |m.lists|
    ensures (exists i :: 0 <= i < |m.lists[t]| && m.lists[t][i] == d) <==> 0 <= d < |m.spot| && m.spot[d].In? && m.spot[d].t == t
  {
    hide Linked;
    if 0 <= d < |m.spot| && m.spot[d].In? && m.spot[d].t == t {
      assert m.lists[t][m.spot[d].i] == d;
    }
  }

  lemma {:induction false} FreeAndHeld(free: seq<bool>)
    ensures |set d | 0 <= d < |free| && !free[d]| + CountFree(free) == |free|
  {
    if free != [] {
      var n := |free| - 1;
      FreeAndHeld(free[..n]);
      var before := set d | 0 <= d < n && !free[..n][d];
      assert (set d | 0 <= d < |free| && !free[d]) == before + (if free[n] then {} else {n});
    }
  }

  lemma HeldAll(m: Pages)
    requires Inv(m)
    ensures (set d | 0 <= d < |m.free| && !m.free[d]) == Held(m.spot, |m.lists|)
  {
    hide Linked;
  }

  /** Free pages and the page counts of all threads always add up to all pages. */
  lemma PagesConserved(m: Pages)
    requires Inv(m)
    ensures CountFree(m.free) + Sum(m.nums) == NUM_PAGES
  {
    hide Inv;
    InvShape(m);
    HeldSum(m, |m.lists|);
    FreeAndHeld(m.free);
    assert m.nums[..|m.lists|] == m.nums;
    HeldAll(m);
  }
}
