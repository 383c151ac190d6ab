/** Runs of page_malloc and page_free, and the addresses they hand out (asst2/my_pthread.c:134-284). */
module PageRuns {
  import opened PageLists
  import opened PageTable
  import opened Paging

  /** One call: an allocation, the release of an allocation between two others, or a call that fails. */
  ghost predicate Step(m: Pages, m': Pages) {
    || m' == m
    || (Shape(m) && exists t, run :: 0 <= t < |m.lists| && FirstFree(m.free, run) && Allocates(m, t, run, m'))
    || (Shape(m) && exists t, a, n :: 0 <= t < |m.lists| && Releases(m, t, a, n, m'))
  }

  lemma StepKeeps(m: Pages, m': Pages)
    requires Inv(m) && Step(m, m')
    ensures Inv(m')
  {
    hide Inv, Allocates, Releases, FirstFree;
    if m' != m {
      if t, run :| 0 <= t < |m.lists| && FirstFree(m.free, run) && Allocates(m, t, run, m') {
        AllocateKeeps(m, t, run, m');
      } else {
        var t, a, n :| 0 <= t < |m.lists| && Releases(m, t, a, n, m');
        ReleaseKeeps(m, t, a, n, m');
      }
    }
  }

  /** Every state of every run keeps the lists disjoint, linked and exact, and conserves the pages. */
  lemma {:induction false} EveryRunKeeps(run: seq<Pages>, k: nat)
    requires k < |run| && Inv(run[0]) && forall i :: 0 < i < |run| ==> Step(run[i - 1], run[i])
    ensures Inv(run[k]) && CountFree(run[k].free) + Sum(run[k].nums) == NUM_PAGES
  {
    hide Inv, Step;
    if k > 0 {
      EveryRunKeeps(run, k - 1);
      StepKeeps(run[k - 1], run[k]);
    }
    PagesConserved(run[k]);
  }

  /** No list is longer than the table, so that paging has a frame for each of its positions. */
  lemma InvFits(m: Pages)
    requires Inv(m)
    ensures Apportioned(m.lists, m.spot) && Fits(m.lists)
  {
    hide Linked, Placed;
    forall t | 0 <= t < |m.lists|
      ensures |m.lists[t]| <= NUM_PAGES && forall i :: 0 <= i < |m.lists[t]| ==> 0 <= m.lists[t][i] < NUM_PAGES
    {
      NotInRun(m, [], t);
      ListFits(m.lists[t], NUM_PAGES);
    }
  }

  lemma {:induction false} ListFits(l: seq<int>, n: nat)
    requires forall i :: 0 <= i < |l| ==> 0 <= l[i] < n
    requires forall i, j :: 0 <= i < j < |l| ==> l[i] != l[j]
    ensures |l| <= n
  {
    assert l != [] ==> 0 <= l[0] < n;
    if n > 0 {
      if k :| 0 <= k < |l| && l[k] == n - 1 {
        ListFits(l[..k] + l[k + 1..], n - 1);
      } else {
        ListFits(l, n - 1);
      }
    }
  }

  // ---------------------------------------------------------------- addresses

  /** The page a thread reaches through an address: the handler looks up this position of its list (lines 54-68). */
  function Reached(l: seq<int>, address: int): int {
    if 0 <= address / 4096 < |l| then l[address / 4096] else NULL
  }

  /** Byte k of a new allocation, counted from the start of its first page, is on the page of the run that should hold it. */
  lemma NewBytesReached(m: Pages, t: int, run: seq<int>, m': Pages, size: int, k: int)
    requires Inv(m) && 0 <= t < |m.lists| && Allocates(m, t, run, m') && 4096 * (|run| - 1) < size <= 4096 * |run| && 0 <= k < size
    ensures k / 4096 < |run| && Reached(m'.lists[t], m.nums[t] * 4096 + k) == run[k / 4096]
  {
    hide Linked, Placed, Occupied, After, Before, Last;
    assert (m.nums[t] * 4096 + k) / 4096 == m.nums[t] + k / 4096;
  }

  /** The address page_malloc returns is one byte further: all bytes of the allocation are on its own pages exactly when the
      size is no multiple of the page size. */
  lemma ReturnedBytesInsideIff(m: Pages, t: int, run: seq<int>, m': Pages, size: int)
    requires Inv(m) && 0 <= t < |m.lists| && FirstFree(m.free, run) && Allocates(m, t, run, m')
    requires 4096 * (|run| - 1) < size <= 4096 * |run| && size > 0
    ensures var ret := m.nums[t] * 4096 + 1;
            (forall x :: ret <= x < ret + size ==> Reached(m'.lists[t], x) in run) <==> size % 4096 != 0
  {
    hide Inv, Allocates, FirstFree;
    InvShape(m);
    AllocatesShape(m, t, run, m');
    var ret := m.nums[t] * 4096 + 1;
    if size % 4096 == 0 {
      EndsAfterRun(m, t, run, m', size);
      assert ret <= ret + size - 1 < ret + size;
    } else {
      forall x | ret <= x < ret + size
        ensures Reached(m'.lists[t], x) in run
      {
        InsideByte(m, t, run, m', size, x - ret + 1);
      }
    }
  }

  lemma AllocatesShape(m: Pages, t: int, run: seq<int>, m': Pages)
    requires Shape(m) && 0 <= t < |m.lists| && Allocates(m, t, run, m')
    ensures |m'.lists| == |m.lists|
  {
  }

  lemma InsideByte(m: Pages, t: int, run: seq<int>, m': Pages, size: int, k: int)
    requires Inv(m) && 0 <= t < |m.lists| && Allocates(m, t, run, m') && 4096 * (|run| - 1) < size <= 4096 * |run|
    requires 0 < k <= size && size % 4096 != 0
    ensures Reached(m'.lists[t], m.nums[t] * 4096 + k) in run
  {
    hide Linked, Placed, Occupied, After, Before, Last;
    assert 0 <= k / 4096 < |run|;
    assert (m.nums[t] * 4096 + k) / 4096 == m.nums[t] + k / 4096;
    assert m'.lists[t][|m.lists[t]| + k / 4096] == run[k / 4096];
  }

  lemma EndsAfterRun(m: Pages, t: int, run: seq<int>, m': Pages, size: int)
    requires Inv(m) && 0 <= t < |m.lists| && FirstFree(m.free, run) && Allocates(m, t, run, m')
    requires 4096 * (|run| - 1) < size <= 4096 * |run| && size > 0 && size % 4096 == 0
    ensures Reached(m'.lists[t], m.nums[t] * 4096 + size) !in run
  {
    hide Linked, Placed, Occupied, After, Before, Last;
    assert (m.nums[t] * 4096 + size) / 4096 == m.nums[t] + |run| == |m'.lists[t]|;
  }

  /** Freeing an allocation moves every later page of the thread: an address reaches the page it did before exactly when it
      lies before the freed allocation. */
  lemma FreeKeepsAddressIff(m: Pages, t: int, a: int, n: int, m': Pages, address: int)
    requires Inv(m) && 0 <= t < |m.lists| && Releases(m, t, a, n, m') && 0 <= address < m.nums[t] * 4096
    ensures Reached(m'.lists[t], address) == Reached(m.lists[t], address) <==> address < a * 4096
  {
    hide Linked, Placed, Vacated;
    NotInRun(m, [], t);
    var l, i := m.lists[t], address / 4096;
    assert Cut(l, a, n) == l[..a] + l[a + n..];
    if i >= a && i + n < |l| {
      assert Cut(l, a, n)[i] == l[i + n];
    }
  }
}
