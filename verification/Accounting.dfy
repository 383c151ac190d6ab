/** Counting blocks: a file of n data blocks owns exactly n plus its index blocks, and all blocks together with the
    free ones make up the disk (asst3/assignment3/src/sfs.c:158-236). */
module Accounting {
  import opened Blocks
  import opened FreeCount
  import opened IndexTree
  import opened StoreImage
  import opened FileImage

  /** The blocks stored in the tree of inode f. */
  ghost function BlocksOf(m: Image, f: int): set<int> {
    set b | 0 <= b < |m.owner| && m.owner[b].Owned? && m.owner[b].f == f
  }

  lemma {:induction false} DataSlots(n: nat)
    ensures |set i | 0 <= i < n :: Data(i)| == n
  {
    if n > 0 {
      DataSlots(n - 1);
      assert (set i | 0 <= i < n :: Data(i)) == (set i | 0 <= i < n - 1 :: Data(i)) + {Data(n - 1)};
    }
  }

  lemma {:induction false} SubSlots(n: nat)
    ensures |set j | 0 <= j < n :: Sub(j)| == n
  {
    if n > 0 {
      SubSlots(n - 1);
      assert (set j | 0 <= j < n :: Sub(j)) == (set j | 0 <= j < n - 1 :: Sub(j)) + {Sub(n - 1)};
    }
  }

  /** The number of index blocks below the double-indirect block. */
  function Subs(n: int): int {
    if n <= 110 then 0 else (n - 110 + 99) / 100
  }

  lemma SubLive(n: int, j: int)
    requires 0 <= n <= 1110 && 0 <= j
    ensures j < 10 && Live(n, Sub(j)) <==> j < Subs(n)
  {
  }

  /** The slots of a dense tree, kind by kind. */
  lemma DenseKeys(t: Tree, n: int)
    requires Dense(t, n)
    ensures t.Keys == (set i | 0 <= i < n :: Data(i)) + (set j | 0 <= j < Subs(n) :: Sub(j))
                      + (if n > 10 then {Single} else {}) + (if n > 110 then {Double} else {})
  {
    hide Subs;
    forall j | 0 <= j
      ensures j < 10 && Live(n, Sub(j)) <==> j < Subs(n)
    {
      SubLive(n, j);
    }
  }

  lemma DenseSize(t: Tree, n: int)
    requires 0 <= n && Dense(t, n)
    ensures |t.Keys| == n + IndexBlocks(n)
  {
    hide Dense;
    DenseKeys(t, n);
    DataSlots(n);
    SubSlots(Subs(n));
  }

  lemma SplitValues(t: Tree, s: Slot, u: Tree)
    requires s in t && u == t - {s} && forall r, s :: r in t && s in t && t[r] == t[s] ==> r == s
    ensures t.Values == u.Values + {t[s]} && t[s] !in u.Values
  {
    forall b | b in t.Values
      ensures b in u.Values + {t[s]}
    {
      var r :| r in t && t[r] == b;
      assert r != s ==> r in u && u[r] == b;
    }
  }

  lemma {:induction false} InjectiveSize(t: Tree)
    requires forall r, s :: r in t && s in t && t[r] == t[s] ==> r == s
    ensures |t.Values| == |t.Keys|
  {
    if t.Keys == {} {
      assert t.Values == {};
    } else {
      var s :| s in t;
      var u := t - {s};
      InjectiveSize(u);
      assert t.Keys == u.Keys + {s};
      SplitValues(t, s, u);
    }
  }

  /** A file with n data blocks owns n blocks, plus none for n <= 10, one for n <= 110, else 2 + ceil((n - 110) / 100). */
  lemma OwnedCount(m: Image, f: int)
    requires Core(m) && 0 <= f < 128 && m.inodes[f].avail
    ensures |BlocksOf(m, f)| == m.inodes[f].nblocks + IndexBlocks(m.inodes[f].nblocks)
  {
    CoreParts(m, f);
    var t := m.trees[f];
    DenseSize(t, m.inodes[f].nblocks);
    ValuesAreBlocks(m, f);
    InjectiveSize(t);
  }

  lemma ValuesAreBlocks(m: Image, f: int)
    requires Exact(m.trees, m.owner) && 0 <= f < |m.trees|
    ensures m.trees[f].Values == BlocksOf(m, f)
    ensures var t := m.trees[f]; forall r, s :: r in t && s in t && t[r] == t[s] ==> r == s
  {
    var t := m.trees[f];
    forall b | b in BlocksOf(m, f)
      ensures b in t.Values
    {
      assert t[m.owner[b].s] == b;
    }
  }

  /** All blocks owned by inodes below k. */
  ghost function OwnedBelow(m: Image, k: int): set<int> {
    set b | 0 <= b < |m.owner| && m.owner[b].Owned? && m.owner[b].f < k
  }

  /** Blocks the files below k account for. */
  function Accounted(inodes: seq<Inode>, k: nat): int
    requires k <= |inodes|
  {
    if k == 0 then 0
    else Accounted(inodes, k - 1) +
         (if inodes[k - 1].avail then inodes[k - 1].nblocks + IndexBlocks(inodes[k - 1].nblocks) else 0)
  }

  lemma {:induction false} AccountedOwned(m: Image, k: nat)
    requires Core(m) && k <= 128
    ensures |OwnedBelow(m, k)| == Accounted(m.inodes, k)
  {
    hide Core, Dense, IndexBlocks, Exact, AllStored;
    CoreShape(m);
    if k == 0 {
      OwnedInRange(m);
      assert OwnedBelow(m, 0) == {};
    } else {
      AccountedOwned(m, k - 1);
      if m.inodes[k - 1].avail {
        OwnedCount(m, k - 1);
      } else {
        NoTree(m, k - 1);
      }
      assert OwnedBelow(m, k) == OwnedBelow(m, k - 1) + BlocksOf(m, k - 1);
    }
  }

  lemma OwnedInRange(m: Image)
    requires Core(m)
    ensures forall b :: 0 <= b < NUM_BLOCKS && m.owner[b].Owned? ==> 0 <= m.owner[b].f < 128
  {
  }

  lemma NoTree(m: Image, f: int)
    requires Core(m) && 0 <= f < 128 && !m.inodes[f].avail
    ensures BlocksOf(m, f) == {}
  {
  }

  lemma {:induction false} UsedAndFree(u: seq<bool>)
    ensures |set b | 0 <= b < |u| && u[b]| + CountFree(u) == |u|
  {
    if |u| > 0 {
      var n := |u| - 1;
      UsedAndFree(u[..n]);
      var before := set b | 0 <= b < n && u[..n][b];
      assert (set b | 0 <= b < |u| && u[b]) == before + (if u[n] then {n} else {});
    }
  }

  /** No block is ever leaked or lost: the blocks of all files and the free blocks make up the disk. */
  lemma NothingLeaked(m: Image)
    requires Core(m)
    ensures Accounted(m.inodes, 128) + CountFree(m.used) == NUM_BLOCKS
  {
    hide Core, CountFree, Accounted;
    CoreShape(m);
    AccountedOwned(m, 128);
    UsedAndFree(m.used);
    UsedIsOwned(m);
  }

  lemma UsedIsOwned(m: Image)
    requires Core(m)
    ensures (set b | 0 <= b < |m.used| && m.used[b]) == OwnedBelow(m, 128)
  {
    hide Exact, AllStored, Dense;
    OwnedInRange(m);
    assert forall b :: 0 <= b < NUM_BLOCKS && m.used[b] ==> m.owner[b].Owned?;
  }
}
