/** The page fault handler (asst2/my_pthread.c:43-104). A thread addresses page p of its own memory at frame p; the handler
    brings the page at position p of the thread's list to that frame. */
module Paging {
  import opened PageLists

  type Frame = seq<bv8>

  /** The frames, the frame every descriptor's page is in, and the descriptor every frame belongs to. */
  datatype Memory = Memory(frames: seq<Frame>, page: seq<int>, at: seq<int>)

  /** Descriptors and frames are in one-to-one correspondence. */
  predicate Sound(m: Memory) {
    && |m.frames| == |m.page| == |m.at| == NUM_PAGES
    && (forall d :: 0 <= d < NUM_PAGES ==> 0 <= m.page[d] < NUM_PAGES && m.at[m.page[d]] == d)
    && (forall f :: 0 <= f < NUM_PAGES ==> 0 <= m.at[f] < NUM_PAGES && m.page[m.at[f]] == f)
  }

  /** The contents of every page, wherever it is. */
  function Flat(m: Memory): (r: seq<Frame>)
    requires Sound(m)
    ensures |r| == NUM_PAGES && forall d :: 0 <= d < NUM_PAGES ==> r[d] == m.frames[m.page[d]]
  {
    seq(NUM_PAGES, d requires 0 <= d < NUM_PAGES => m.frames[m.page[d]])
  }

  /** Lines 96-98: the contents of two frames change places. */
  function SwappedFrames(frames: seq<Frame>, f: int, p: int): seq<Frame>
    requires 0 <= f < |frames| && 0 <= p < |frames|
  {
    frames[p := frames[f]][f := frames[p]]
  }

  /** The fault as lines 88-93 describe it: page d is now in frame p, and the page that was there has the frame of d. */
  function Exchanged(m: Memory, d: int, p: int): Memory
    requires Sound(m) && 0 <= d < NUM_PAGES && 0 <= p < NUM_PAGES
  {
    var f, e := m.page[d], m.at[p];
    Memory(SwappedFrames(m.frames, f, p), m.page[d := p][e := f], m.at[p := d][f := e])
  }

  /** The fault as lines 96-100 do it: the links are stored back as they were. */
  function FaultAsWritten(m: Memory, d: int, p: int): Memory
    requires Sound(m) && 0 <= d < NUM_PAGES && 0 <= p < NUM_PAGES
  {
    m.(frames := SwappedFrames(m.frames, m.page[d], p))
  }

  /** An exchange moves pages without changing any, and leaves the wanted page in the addressed frame. */
  lemma ExchangeKeepsPages(m: Memory, d: int, p: int)
    requires Sound(m) && 0 <= d < NUM_PAGES && 0 <= p < NUM_PAGES
    ensures var m' := Exchanged(m, d, p); Sound(m') && Flat(m') == Flat(m) && m'.page[d] == p
  {
    var m' := Exchanged(m, d, p);
    var f, e := m.page[d], m.at[p];
    assert f == p <==> d == e;
    assert m'.page[d] == p && m'.page[e] == f && m'.at[p] == d && m'.at[f] == e;
    forall k | 0 <= k < NUM_PAGES
      ensures 0 <= m'.page[k] < NUM_PAGES && m'.at[m'.page[k]] == k && m'.frames[m'.page[k]] == m.frames[m.page[k]]
    {
      if k != d && k != e {
        assert m.page[k] != f && m.page[k] != p;
      }
    }
    forall k | 0 <= k < NUM_PAGES
      ensures 0 <= m'.at[k] < NUM_PAGES && m'.page[m'.at[k]] == k
    {
      if k != f && k != p {
        assert m.at[k] != d && m.at[k] != e;
      }
    }
  }

  /** The fault as written puts the wanted contents in the addressed frame and leaves every link, and keeps the contents of
      every page exactly when the two frames held the same. */
  lemma AsWrittenKeepsPagesIff(m: Memory, d: int, p: int)
    requires Sound(m) && 0 <= d < NUM_PAGES && 0 <= p < NUM_PAGES
    ensures var m' := FaultAsWritten(m, d, p);
            && Sound(m') && m'.page == m.page && m'.frames[p] == Flat(m)[d]
            && (Flat(m') == Flat(m) <==> m.frames[m.page[d]] == m.frames[p])
  {
    var m', f := FaultAsWritten(m, d, p), m.page[d];
    assert Flat(m')[d] == m'.frames[f] == m.frames[p];
    if m.frames[f] == m.frames[p] {
      assert m'.frames == m.frames;
    }
  }

  /** A second fault on the same page undoes the first: the wanted page is out of the addressed frame again. */
  lemma AsWrittenTwiceUndoes(m: Memory, d: int, p: int)
    requires Sound(m) && 0 <= d < NUM_PAGES && 0 <= p < NUM_PAGES
    ensures var m' := FaultAsWritten(m, d, p); Sound(m') && FaultAsWritten(m', d, p) == m
  {
    var m' := FaultAsWritten(m, d, p);
    assert SwappedFrames(m'.frames, m.page[d], p) == m.frames;
  }

  /** A memory in which a fault as written loses the contents of two pages. */
  lemma AsWrittenMixesPages()
    ensures exists m, d, p :: && Sound(m) && 0 <= d < NUM_PAGES && 0 <= p < NUM_PAGES
                              && Flat(FaultAsWritten(m, d, p))[d] != Flat(m)[d]
  {
    var blank: Frame := [0];
    var other: Frame := [1];
    var ids := seq(NUM_PAGES, i => i);
    var m := Memory(seq(NUM_PAGES, i => if i == 0 then blank else other), ids, ids);
    assert Flat(FaultAsWritten(m, 1, 0))[1] == blank != other == Flat(m)[1];
  }

  // ---------------------------------------------------------------- private memory

  /** A thread reads or writes page i of its own memory. */
  datatype Access = Get(t: int, i: int) | Put(t: int, i: int, value: Frame)

  /** The lists of pages as page_malloc keeps them. */
  predicate Apportioned(lists: seq<seq<int>>, spot: seq<Spot>) {
    Placed(lists, spot) && |spot| == NUM_PAGES
  }

  predicate Owns(lists: seq<seq<int>>, a: Access) {
    0 <= a.t < |lists| && 0 <= a.i < |lists[a.t]|
  }

  /** The position of a page in its list is the frame it is addressed at, so it must be one. */
  predicate Fits(lists: seq<seq<int>>) {
    forall t :: 0 <= t < |lists| ==> |lists[t]| <= NUM_PAGES && forall i :: 0 <= i < |lists[t]| ==> 0 <= lists[t][i] < NUM_PAGES
  }

  /** One access to frame i, after a fault unless the thread's page is there already. */
  function Accessed(m: Memory, lists: seq<seq<int>>, a: Access): (r: Memory)
    requires Sound(m) && Fits(lists) && Owns(lists, a)
  {
    var d := lists[a.t][a.i];
    var m1 := if m.page[d] == a.i then m else Exchanged(m, d, a.i);
    if a.Put? then m1.(frames := m1.frames[a.i := a.value]) else m1
  }

  /** What the thread finds in frame i. */
  function Seen(m: Memory, lists: seq<seq<int>>, a: Access): Frame
    requires Sound(m) && Fits(lists) && Owns(lists, a)
  {
    Accessed(m, lists, a).frames[a.i]
  }

  /** What thread t owns, as a memory of its own. */
  function View(m: Memory, l: seq<int>): (r: seq<Frame>)
    requires Sound(m) && forall i :: 0 <= i < |l| ==> 0 <= l[i] < NUM_PAGES
    ensures |r| == |l| && forall i :: 0 <= i < |l| ==> r[i] == m.frames[m.page[l[i]]]
  {
    seq(|l|, i requires 0 <= i < |l| => m.frames[m.page[l[i]]])
  }

  /** The same access on the memory of thread t alone. */
  function Private(mine: seq<Frame>, t: int, a: Access): (r: seq<Frame>)
    ensures |r| == |mine|
  {
    if a.Put? && a.t == t && 0 <= a.i < |mine| then mine[a.i := a.value] else mine
  }

  lemma AccessKeeps(m: Memory, lists: seq<seq<int>>, a: Access)
    requires Sound(m) && Fits(lists) && Owns(lists, a)
    ensures var m', d := Accessed(m, lists, a), lists[a.t][a.i];
            Sound(m') && Flat(m') == if a.Put? then Flat(m)[d := a.value] else Flat(m)
    ensures Seen(m, lists, a) == if a.Put? then a.value else View(m, lists[a.t])[a.i]
  {
    hide Exchanged;
    var d := lists[a.t][a.i];
    ExchangeKeepsPages(m, d, a.i);
    var m1 := if m.page[d] == a.i then m else Exchanged(m, d, a.i);
    assert Flat(m1) == Flat(m) && m1.page[d] == a.i && Sound(m1) && m1.frames[a.i] == Flat(m1)[d];
    var m' := Accessed(m, lists, a);
    assert Sound(m');
    assert Flat(m') == if a.Put? then Flat(m)[d := a.value] else Flat(m);
  }

  lemma AccessIsPrivate(m: Memory, lists: seq<seq<int>>, spot: seq<Spot>, a: Access, t: int)
    requires Sound(m) && Fits(lists) && Apportioned(lists, spot) && Owns(lists, a) && 0 <= t < |lists|
    ensures var m' := Accessed(m, lists, a); Sound(m') && View(m', lists[t]) == Private(View(m, lists[t]), t, a)
  {
    hide Accessed, Placed, Sound;
    AccessKeeps(m, lists, a);
    var m', d := Accessed(m, lists, a), lists[a.t][a.i];
    forall i | 0 <= i < |lists[t]|
      ensures View(m', lists[t])[i] == Private(View(m, lists[t]), t, a)[i]
    {
      SamePage(lists, spot, t, i, a.t, a.i);
      assert View(m', lists[t])[i] == Flat(m')[lists[t][i]] && View(m, lists[t])[i] == Flat(m)[lists[t][i]];
    }
  }

  lemma SamePage(lists: seq<seq<int>>, spot: seq<Spot>, t: int, i: int, u: int, j: int)
    requires Placed(lists, spot) && 0 <= t < |lists| && 0 <= i < |lists[t]| && 0 <= u < |lists| && 0 <= j < |lists[u]|
    ensures lists[t][i] == lists[u][j] <==> t == u && i == j
  {
    assert spot[lists[t][i]] == In(t, i) && spot[lists[u][j]] == In(u, j);
  }

  function AllAccessed(m: Memory, lists: seq<seq<int>>, run: seq<Access>): (r: Memory)
    requires Sound(m) && Fits(lists) && forall k :: 0 <= k < |run| ==> Owns(lists, run[k])
    ensures Sound(r)
  {
    if run == [] then m
    else
      var n := |run| - 1;
      var before := AllAccessed(m, lists, run[..n]);
      AccessKeeps(before, lists, run[n]);
      Accessed(before, lists, run[n])
  }

  function AllPrivate(mine: seq<Frame>, t: int, run: seq<Access>): (r: seq<Frame>)
    ensures |r| == |mine|
  {
    if run == [] then mine else Private(AllPrivate(mine, t, run[..|run| - 1]), t, run[|run| - 1])
  }

  /** Over every run of accesses by any threads, every thread has a private flat memory. */
  lemma {:induction false} PagingIsPrivateMemory(m: Memory, lists: seq<seq<int>>, spot: seq<Spot>, run: seq<Access>, t: int)
    requires Sound(m) && Fits(lists) && Apportioned(lists, spot) && 0 <= t < |lists|
    requires forall k :: 0 <= k < |run| ==> Owns(lists, run[k])
    ensures View(AllAccessed(m, lists, run), lists[t]) == AllPrivate(View(m, lists[t]), t, run)
  {
    if run != [] {
      var n := |run| - 1;
      PagingIsPrivateMemory(m, lists, spot, run[..n], t);
      AccessIsPrivate(AllAccessed(m, lists, run[..n]), lists, spot, run[n], t);
    }
  }

  /** Every read, after any run, returns what the reader's own memory holds. */
  lemma ReadsArePrivate(m: Memory, lists: seq<seq<int>>, spot: seq<Spot>, run: seq<Access>, t: int, i: int)
    requires Sound(m) && Fits(lists) && Apportioned(lists, spot) && Owns(lists, Get(t, i))
    requires forall k :: 0 <= k < |run| ==> Owns(lists, run[k])
    ensures Seen(AllAccessed(m, lists, run), lists, Get(t, i)) == AllPrivate(View(m, lists[t]), t, run)[i]
  {
    hide Accessed, AllAccessed, AllPrivate, Seen;
    PagingIsPrivateMemory(m, lists, spot, run, t);
    AccessKeeps(AllAccessed(m, lists, run), lists, Get(t, i));
  }

  // ---------------------------------------------------------------- the handler

  class PagedMemory {
    const frames: array<Frame>
    const page: array<int>
    ghost var at: seq<int>

    ghost function M(): Memory
      reads this, frames, page
    {
      Memory(frames[..], page[..], at)
    }

    /** Frame i holds page i at first (125). */
    constructor (contents: seq<Frame>)
      requires |contents| == NUM_PAGES
      ensures Sound(M()) && Flat(M()) == contents
    {
      frames := new Frame[NUM_PAGES](i requires 0 <= i < NUM_PAGES => contents[i]);
      page := new int[NUM_PAGES](i => i);
      at := seq(NUM_PAGES, i => i);
    }

    /** The searches for the descriptor of a frame (69-86). */
    method DescriptorOf(f: int) returns (i: int)
      requires Sound(M()) && 0 <= f < NUM_PAGES
      ensures i == at[f]
    {
      i := 0;
      while page[i] != f
        invariant 0 <= i <= at[f]
        decreases at[f] - i
      {
        i := i + 1;
      }
    }

    /** The walk to the page at position p of the list (64-67). */
    static method Walk(head: int, next: seq<int>, p: int, ghost l: seq<int>) returns (ptr: int)
      requires 0 <= p < |l| && head == l[0]
      requires forall i :: 0 <= i < |l| ==> 0 <= l[i] < |next| && next[l[i]] == After(l, i)
      ensures ptr == l[p]
    {
      ptr := head;
      for i := 0 to p
        invariant ptr == l[i]
      {
        ptr := next[ptr];
      }
    }

    /** The handler as it is written. */
    method Fault(head: int, next: seq<int>, p: int, ghost l: seq<int>)
      requires Sound(M()) && 0 <= p < |l| && p < NUM_PAGES && head == l[0]
      requires forall i :: 0 <= i < |l| ==> 0 <= l[i] < |next| && l[i] < NUM_PAGES && next[l[i]] == After(l, i)
      modifies frames, page
      ensures M() == FaultAsWritten(old(M()), l[p], p)
    {
      var ptr := Walk(head, next, p, l);
      var wrong, right := p, page[ptr];
      var swapout := DescriptorOf(wrong);
      var swapin := DescriptorOf(right);
      var temp := frames[wrong];
      frames[wrong] := frames[right];
      frames[right] := temp;
      page[swapin] := right;
      page[swapout] := wrong;
      assert page[..] == old(page[..]);
    }

    /** The handler with the exchange of page links its comment announces. */
    method FaultIntended(head: int, next: seq<int>, p: int, ghost l: seq<int>)
      requires Sound(M()) && 0 <= p < |l| && p < NUM_PAGES && head == l[0]
      requires forall i :: 0 <= i < |l| ==> 0 <= l[i] < |next| && l[i] < NUM_PAGES && next[l[i]] == After(l, i)
      modifies this, frames, page
      ensures M() == Exchanged(old(M()), l[p], p)
      ensures Sound(M()) && Flat(M()) == old(Flat(M())) && page[l[p]] == p
    {
      var ptr := Walk(head, next, p, l);
      ExchangeKeepsPages(M(), ptr, p);
      var wrong, right := p, page[ptr];
      var swapout := DescriptorOf(wrong);
      var swapin := DescriptorOf(right);
      var temp := frames[wrong];
      frames[wrong] := frames[right];
      frames[right] := temp;
      page[swapin] := wrong;
      page[swapout] := right;
      at := at[wrong := ptr][right := swapout];
    }
  }
}
