/** page_malloc and page_free on the array of page descriptors (asst2/my_pthread.c:106-284). Descriptors are numbered, and
    NULL is -1. */
module PageTable {
  import opened PageLists

  function PagesNeeded(size: int): int {
    if size % 4096 == 0 then size / 4096 else size / 4096 + 1
  }

  class PageTable {
    const next: array<int>
    const prev: array<int>
    const free: array<bool>
    const more: array<bool>
    const heads: array<int>         // page_list of each thread
    const nums: array<int>          // num_pages of each thread
    ghost var lists: seq<seq<int>>
    ghost var spot: seq<Spot>

    /** The arrays are different objects. */
    ghost predicate Separate() {
      && next != prev && next != heads && next != nums && prev != heads && prev != nums && heads != nums
      && free != more
    }

    ghost function M(): Pages
      reads this, next, prev, free, more, heads, nums
    {
      Pages(next[..], prev[..], free[..], more[..], heads[..], nums[..], lists, spot)
    }

    ghost predicate Valid()
      reads this, next, prev, free, more, heads, nums
    {
      Separate() && Inv(M())
    }

    /** page_malloc_init, for a number of threads without pages */
    constructor (threads: nat)
      ensures Valid() && heads.Length == threads
      ensures forall t :: 0 <= t < threads ==> lists[t] == []
    {
      hide Inv;
      next := new int[NUM_PAGES](i => NULL);
      prev := new int[NUM_PAGES](i => NULL);
      free := new bool[NUM_PAGES](i => true);
      more := new bool[NUM_PAGES](i => false);
      heads := new int[threads](i => NULL);
      nums := new int[threads](i => 0);
      lists := seq(threads, i => []);
      spot := seq(NUM_PAGES, i => Spot.Free);
      new;
      EmptyInv(M());
    }

    /** The search for free pages (159-174). */
    method FindFree(needed: nat) returns (ok: bool, pages: seq<int>)
      requires needed > 0
      ensures ok ==> |pages| == needed && FirstFree(free[..], pages)
      ensures ok <==> CountFree(free[..]) >= needed
    {
      pages := [];
      var i := 0;
      while i < free.Length
        invariant 0 <= i <= free.Length
        invariant |pages| == CountFree(free[..i]) && |pages| < needed
        invariant FirstFree(free[..i], pages)
        invariant forall d :: 0 <= d < i && free[d] ==> d in pages
      {
        assert free[..i + 1][..i] == free[..i];
        if free[i] {
          pages := pages + [i];
          assert FirstFree(free[..i + 1], pages);
          if |pages| == needed {
            CountMonotone(free[..], i + 1);
            AllBelow(free[..], i + 1, pages);
            return true, pages;
          }
        } else {
          assert FirstFree(free[..i + 1], pages);
        }
        i := i + 1;
      }
      assert free[..free.Length] == free[..];
      ok := false;
    }

    /** The linking loop (183-202). */
    method LinkRun(run: seq<int>)
      requires Separate() && next.Length == prev.Length == free.Length == more.Length == NUM_PAGES
      requires run != [] && (forall i :: 0 <= i < |run| ==> 0 <= run[i] < NUM_PAGES)
      requires forall i, j :: 0 <= i < j < |run| ==> run[i] != run[j]
      modifies next, prev, free, more
      ensures RunLinked(old(next[..]), old(prev[..]), old(free[..]), old(more[..]), run, next[..], prev[..], free[..], more[..])
    {
      hide After, Before;
      for i := 0 to |run|
        invariant forall j :: 0 <= j < i ==> !free[run[j]]
        invariant forall j :: 0 <= j < i ==> (more[run[j]] <==> j + 1 < |run|)
        invariant forall j :: 0 <= j < i ==> next[run[j]] == After(run, j)
        invariant forall j :: 0 <= j < i ==> prev[run[j]] == Before(run, j)
        invariant forall d :: 0 <= d < NUM_PAGES && d !in run ==>
                    && free[d] == old(free[d]) && more[d] == old(more[d]) && next[d] == old(next[d]) && prev[d] == old(prev[d])
      {
        Neighbours(run, i);
        LinkOne(run[i], if i == |run| - 1 then NULL else run[i + 1], if i == 0 then NULL else run[i - 1], i != |run| - 1);
      }
    }

    method LinkOne(d: int, after: int, before: int, continues: bool)
      requires Separate() && next.Length == prev.Length == free.Length == more.Length == NUM_PAGES && 0 <= d < NUM_PAGES
      modifies next, prev, free, more
      ensures !free[d] && more[d] == continues && next[d] == after && prev[d] == before
      ensures forall e :: 0 <= e < NUM_PAGES && e != d ==>
                && free[e] == old(free[e]) && more[e] == old(more[e]) && next[e] == old(next[e]) && prev[e] == old(prev[e])
    {
      free[d] := false;
      more[d] := continues;
      next[d] := after;
      prev[d] := before;
    }

    /** page_malloc for thread t: the address is relative to the start of memory, and -1 stands for the NULL result with
        ENOMEM. */
    method Malloc(t: int, size: int) returns (ret: int, ghost run: seq<int>)
      requires Valid() && 0 <= t < heads.Length && size > 0
      modifies this, next, prev, free, more, heads, nums
      ensures Valid()
      ensures ret == NULL <==> 4096 * old(CountFree(free[..])) < size
      ensures ret == NULL ==> M() == old(M())
      ensures ret != NULL ==>
                && ret == old(nums[t]) * 4096 + 1
                && 4096 * (|run| - 1) < size <= 4096 * |run|
                && FirstFree(old(free[..]), run) && Allocates(old(M()), t, run, M())
    {
      hide Inv, Allocates, RunLinked, Spliced, FirstFree;
      ghost var m := M();
      InvShape(m);
      NeededIsCeil(size);
      NumberOfPages(m, t);
      var ok, pages := FindFree(PagesNeeded(size));
      if !ok {
        return NULL, [];
      }
      run := pages;
      FirstFreeShape(m.free, run);
      LinkRun(pages);
      ghost var next1, prev1 := next[..], prev[..];
      Splice(t, pages, m, free[..], more[..]);
      ret := nums[t] * 4096 + 1;
      nums[t] := nums[t] + |pages|;
      lists, spot := m.lists[t := m.lists[t] + run], Occupied(m.spot, t, |m.lists[t]|, run);
      Assemble(m, t, run, next1, prev1, M());
      AllocateKeeps(m, t, run, M());
    }

    method FindLast(head: int, ghost l: seq<int>) returns (ptr: int)
      requires next.Length == NUM_PAGES && l != [] && head == l[0]
      requires forall i :: 0 <= i < |l| ==> 0 <= l[i] < NUM_PAGES && next[l[i]] == After(l, i)
      ensures 0 <= ptr < NUM_PAGES && ptr == Last(l)
    {
      ptr := head;
      ghost var i := 0;
      while next[ptr] != NULL
        invariant 0 <= i < |l| && ptr == l[i]
        decreases |l| - i
      {
        ptr := next[ptr];
        i := i + 1;
      }
    }

    /** Appending the linked run to the list of the caller (209-218). */
    method Splice(t: int, run: seq<int>, ghost m: Pages, ghost free': seq<bool>, ghost more': seq<bool>)
      requires Separate() && Inv(m) && 0 <= t < |m.lists| && FirstFree(m.free, run) && run != []
      requires heads[..] == m.heads && next.Length == prev.Length == NUM_PAGES
      requires RunLinked(m.next, m.prev, m.free, m.more, run, next[..], prev[..], free', more')
      modifies next, prev, heads
      ensures Spliced(m, t, run, old(next[..]), old(prev[..]), next[..], prev[..], heads[..])
    {
      hide Inv, FirstFree, RunLinked, After, Linked, Last;
      ghost var l := m.lists[t];
      ListEnds(m, t);
      FirstFreeShape(m.free, run);
      NotInRun(m, run, t);
      Unlinked(m, run, next[..], prev[..], free', more');
      assert forall i :: 0 <= i < |l| ==> 0 <= l[i] < NUM_PAGES && next[l[i]] == After(l, i);
      var ptr := heads[t];
      if ptr == NULL {
        heads[t] := run[0];
      } else {
        ptr := FindLast(ptr, l);
        next[ptr] := run[0];
        prev[run[0]] := ptr;
        assert next[..] == old(next[..])[ptr := run[0]] && prev[..] == old(prev[..])[run[0] := ptr] && heads[..] == m.heads;
      }
    }

    /** page_free for thread t, naming the allocation by its first descriptor. The allocation lies between two others. */
    method Free(t: int, d: int) returns (ok: bool, ghost a: int, ghost n: int)
      requires Valid() && 0 <= t < heads.Length
      requires forall a :: 0 <= a < |lists[t]| && lists[t][a] == d ==> InteriorAt(M(), t, a)
      modifies this, next, prev, free, nums
      ensures Valid()
      ensures ok <==> d in old(lists[t])
      ensures !ok ==> M() == old(M())
      ensures ok ==> 0 <= a < |old(lists[t])| && old(lists[t])[a] == d && Releases(old(M()), t, a, n, M())
    {
      hide Inv, Releases, InteriorAt, After, Before, Last;
      ghost var m := M();
      InvShape(m);
      ListEnds(m, t);
      var ptr;
      ptr, a := Find(heads[t], d, m.lists[t]);
      ok, n := ptr != NULL, 0;
      if ok {
        n := Remove(t, ptr, a);
      }
    }

    /** Removing the allocation that was found (255-281). */
    method Remove(t: int, first: int, ghost a: int) returns (ghost n: int)
      requires Valid() && 0 <= t < |lists| && InteriorAt(M(), t, a) && 0 <= a < |lists[t]| && lists[t][a] == first
      modifies this, next, prev, free, nums
      ensures Valid() && Releases(old(M()), t, a, n, M())
    {
      hide Inv, Releases, After, Before, Last, Cut, Vacated, InteriorAt, Marked, Interior;
      ghost var m := M();
      ListEnds(m, t);
      NotInRun(m, [], t);
      ghost var l := m.lists[t];
      n := RunLength(m, t, a);
      InteriorParts(m, t, a, n);
      var cut1 := prev[first];
      var ptr := FindEnd(first, l, a, n);
      var cut2 := next[ptr];
      EndsOfRun(l, a, n);
      var freed := Mark(next[cut1], cut2, l, a, n);
      Unhook(cut1, cut2, t, freed);
      lists, spot := m.lists[t := Cut(l, a, n)], Vacated(m.spot, t, a, n);
      Freed(m, t, a, n, M());
      ReleaseKeeps(m, t, a, n, M());
    }

    /** Lines 279-281. */
    method Unhook(cut1: int, cut2: int, t: int, freed: int)
      requires Separate() && next.Length == prev.Length == NUM_PAGES && 0 <= cut1 < NUM_PAGES && 0 <= cut2 < NUM_PAGES
      requires 0 <= t < nums.Length
      modifies next, prev, nums
      ensures next[..] == old(next[..])[cut1 := cut2] && prev[..] == old(prev[..])[cut2 := cut1]
      ensures nums[..] == old(nums[..])[t := old(nums[t]) - freed]
    {
      next[cut1] := cut2;
      prev[cut2] := cut1;
      nums[t] := nums[t] - freed;
    }

    /** Finding the descriptor in the list (237-247). */
    method Find(head: int, d: int, ghost l: seq<int>) returns (ptr: int, ghost a: int)
      requires next.Length == NUM_PAGES && head == (if l == [] then NULL else l[0])
      requires forall i :: 0 <= i < |l| ==> 0 <= l[i] < NUM_PAGES && next[l[i]] == After(l, i)
      ensures ptr == NULL <==> d !in l
      ensures ptr != NULL ==> 0 <= a < |l| && l[a] == d == ptr
    {
      ptr, a := head, 0;
      while ptr != NULL
        invariant 0 <= a <= |l| && ptr == (if a < |l| then l[a] else NULL) && d !in l[..a]
        decreases |l| - a
      {
        if ptr == d {
          break;
        }
        ptr := next[ptr];
        a := a + 1;
      }
      assert a == |l| ==> l[..a] == l;
    }

    /** The end of the allocation (256-259). */
    method FindEnd(start: int, ghost l: seq<int>, ghost a: int, ghost n: int) returns (ptr: int)
      requires next.Length == more.Length == NUM_PAGES && 0 <= a && 0 < n && a + n < |l| && start == l[a]
      requires forall i :: 0 <= i < |l| ==> 0 <= l[i] < NUM_PAGES && next[l[i]] == After(l, i)
      requires (forall i :: a <= i < a + n - 1 ==> more[l[i]]) && !more[l[a + n - 1]]
      ensures ptr == l[a + n - 1]
    {
      ptr := start;
      ghost var i := a;
      while more[ptr]
        invariant a <= i < a + n && ptr == l[i]
        decreases a + n - i
      {
        ptr := next[ptr];
        i := i + 1;
      }
    }

    /** Marking the pages of the allocation as free (268-278). */
    method Mark(start: int, stop: int, ghost l: seq<int>, ghost a: int, ghost n: int) returns (freed: int)
      requires next.Length == free.Length == NUM_PAGES && 0 <= a && 0 < n && a + n < |l| && start == l[a] && stop == l[a + n]
      requires forall i :: 0 <= i < |l| ==> 0 <= l[i] < NUM_PAGES && next[l[i]] == After(l, i)
      requires forall i, j :: 0 <= i < j < |l| ==> l[i] != l[j]
      modifies free
      ensures freed == n
      ensures Marked(old(free[..]), l[a..a + n], free[..])
    {
      hide After;
      freed := 0;
      var ptr := start;
      while ptr != NULL
        invariant 0 <= freed <= n && ptr == l[a + freed]
        invariant forall d :: 0 <= d < NUM_PAGES ==> (free[d] <==> old(free[d]) || d in l[a..a + freed])
        decreases n - freed
      {
        if ptr == stop {
          break;
        }
        free[ptr] := true;
        assert l[a..a + freed + 1] == l[a..a + freed] + [ptr];
        AfterAt(l, a + freed);
        freed := freed + 1;
        ptr := next[ptr];
      }
    }
  }

  /** An allocation starts at index a of the list of t, between two others. */
  ghost predicate InteriorAt(m: Pages, t: int, a: int) {
    Shape(m) && 0 <= t < |m.lists| && exists n :: Interior(m, t, a, n)
  }

  ghost function RunLength(m: Pages, t: int, a: int): (n: int)
    requires InteriorAt(m, t, a)
    ensures Shape(m) && 0 <= t < |m.lists| && Interior(m, t, a, n)
  {
    var n :| Interior(m, t, a, n); n
  }

  lemma EmptyInv(m: Pages)
    requires Shape(m) && (forall t :: 0 <= t < |m.lists| ==> m.lists[t] == [] && m.heads[t] == NULL && m.nums[t] == 0)
    requires forall d :: 0 <= d < NUM_PAGES ==> m.free[d] && m.spot[d] == Free
    ensures Inv(m)
  {
  }

  lemma EndsOfRun(l: seq<int>, a: int, n: int)
    requires 0 < a && 0 < n && a + n < |l|
    ensures After(l, a - 1) == l[a] && After(l, a + n - 1) == l[a + n] && Before(l, a) == l[a - 1]
  {
  }

  lemma InSlice(m: Pages, t: int, a: int, n: int, d: int)
    requires Inv(m) && 0 <= t < |m.lists| && 0 <= a && 0 <= n && a + n <= |m.lists[t]| && d in m.lists[t][a..a + n]
    ensures 0 <= d < |m.spot| && m.spot[d].In? && m.spot[d].t == t && a <= m.spot[d].i < a + n
  {
    hide Linked;
    var l := m.lists[t];
    var i :| a <= i < a + n && l[i] == d;
    assert m.spot[l[i]] == In(t, i);
  }

  lemma InRun(m: Pages, t: int, a: int, n: int, d: int)
    requires Inv(m) && 0 <= t < |m.lists| && 0 <= a && 0 <= n && a + n <= |m.lists[t]| && 0 <= d < NUM_PAGES
    ensures Shape(m)
    ensures d in m.lists[t][a..a + n] <==> m.spot[d].In? && m.spot[d].t == t && a <= m.spot[d].i < a + n
  {
    hide Linked;
    var l := m.lists[t];
    if m.spot[d].In? && m.spot[d].t == t && a <= m.spot[d].i < a + n {
      assert l[a..a + n][m.spot[d].i - a] == d;
    }
    if d in l[a..a + n] {
      InSlice(m, t, a, n, d);
    }
  }

  lemma InteriorParts(m: Pages, t: int, a: int, n: int)
    requires Shape(m) && 0 <= t < |m.lists| && Interior(m, t, a, n)
    ensures var l := m.lists[t];
            && 0 < a && 0 < n && a + n < |l| && (forall i :: 0 <= i < |l| ==> 0 <= l[i] < NUM_PAGES)
            && (forall i :: a <= i < a + n - 1 ==> m.more[l[i]]) && !m.more[l[a + n - 1]]
  {
  }

  predicate Marked(free: seq<bool>, run: seq<int>, free': seq<bool>) {
    |free| == |free'| == NUM_PAGES && forall d :: 0 <= d < NUM_PAGES ==> (free'[d] <==> free[d] || d in run)
  }

  ghost function CutOut(m: Pages, t: int, a: int, n: int, free: seq<bool>): Pages
    requires Shape(m) && 0 <= t < |m.lists| && Interior(m, t, a, n)
  {
    var l := m.lists[t];
    m.(lists := m.lists[t := Cut(l, a, n)], spot := Vacated(m.spot, t, a, n), nums := m.nums[t := m.nums[t] - n],
       next := m.next[l[a - 1] := l[a + n]], prev := m.prev[l[a + n] := l[a - 1]], free := free)
  }

  /** Marking the run and cutting it out is a release. */
  lemma Freed(m: Pages, t: int, a: int, n: int, m': Pages)
    requires Inv(m) && Shape(m) && 0 <= t < |m.lists| && Interior(m, t, a, n) && Shape(m')
    requires m' == CutOut(m, t, a, n, m'.free) && Marked(m.free, m.lists[t][a..a + n], m'.free)
    ensures Releases(m, t, a, n, m')
  {
    hide Inv, Cut, Vacated;
    forall d | 0 <= d < NUM_PAGES
      ensures m'.free[d] <==> m.free[d] || (m.spot[d].In? && m.spot[d].t == t && a <= m.spot[d].i < a + n)
    {
      InRun(m, t, a, n, d);
    }
  }

  lemma ListEnds(m: Pages, t: int)
    requires Inv(m) && 0 <= t < |m.lists|
    ensures Shape(m)
    ensures var l := m.lists[t];
            && m.heads[t] == (if l == [] then NULL else l[0]) && (l != [] ==> Last(l) == l[|l| - 1])
            && (forall i :: 0 <= i < |l| ==> 0 <= l[i] < NUM_PAGES && m.next[l[i]] == After(l, i) && m.prev[l[i]] == Before(l, i))
  {
    hide Placed;
    NotInRun(m, [], t);
    assert Linked(m.next, m.prev, m.lists[t]);
  }

  lemma Unlinked(m: Pages, run: seq<int>, next: seq<int>, prev: seq<int>, free: seq<bool>, more: seq<bool>)
    requires RunLinked(m.next, m.prev, m.free, m.more, run, next, prev, free, more)
    ensures forall d :: 0 <= d < NUM_PAGES && d !in run ==> next[d] == m.next[d]
  {
  }

  /** The fewest pages that hold size bytes. */
  lemma NeededIsCeil(size: int)
    requires size > 0
    ensures 4096 * (PagesNeeded(size) - 1) < size <= 4096 * PagesNeeded(size)
  {
  }

  lemma NumberOfPages(m: Pages, t: int)
    requires Inv(m) && 0 <= t < |m.lists|
    ensures |m.nums| == |m.lists| && m.nums[t] >= 0
  {
    hide Linked, Placed;
  }

  lemma {:induction false} CountMonotone(free: seq<bool>, i: int)
    requires 0 <= i <= |free|
    ensures CountFree(free[..i]) <= CountFree(free)
  {
    if i < |free| {
      var n := |free| - 1;
      CountMonotone(free[..n], i);
      assert free[..n][..i] == free[..i];
    } else {
      assert free[..i] == free;
    }
  }

  lemma AllBelow(free: seq<bool>, i: int, pages: seq<int>)
    requires 0 <= i <= |free| && FirstFree(free[..i], pages)
    requires forall d :: 0 <= d < i && free[d] ==> d in pages
    ensures FirstFree(free, pages)
  {
  }
}
