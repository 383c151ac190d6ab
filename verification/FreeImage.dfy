/** What free_inode does to the block store (asst3/assignment3/src/sfs.c:88-138). */
module FreeImage {
  import opened Blocks
  import opened FreeCount
  import opened IndexTree
  import opened StoreImage
  import opened FileImage

  /** disk_blocks after the blocks in the slots `done` of inode f were marked FREE. */
  ghost predicate Released(m: Image, f: int, done: set<Slot>, u: seq<bool>)
    requires Shape(m)
  {
    && |u| == NUM_BLOCKS
    && (forall b :: 0 <= b < NUM_BLOCKS ==>
          (u[b] <==> m.used[b] && !(m.owner[b].Owned? && m.owner[b].f == f && m.owner[b].s in done)))
  }

  /** The data slots [from, to) that tree t uses. */
  ghost function Run(t: Tree, from: int, to: int): set<Slot> {
    set k | from <= k < to && Data(k) in t :: Data(k)
  }

  // The three parts of a tree that free_inode releases one after the other.

  predicate InDouble(s: Slot) {
    s.Double? || s.Sub? || (s.Data? && s.i >= 110)
  }

  predicate InSingle(s: Slot) {
    s.Single? || (s.Data? && 10 <= s.i < 110)
  }

  predicate Direct(s: Slot) {
    s.Data? && s.i < 10
  }

  ghost function Part(t: Tree, p: Slot -> bool): set<Slot> {
    set s | s in t && p(s)
  }

  lemma ReleaseOne(m: Image, f: int, done: set<Slot>, u: seq<bool>, s: Slot)
    requires Core(m) && 0 <= f < 128 && Released(m, f, done, u) && s in m.trees[f]
    ensures 0 <= m.trees[f][s] < NUM_BLOCKS
    ensures Released(m, f, done + {s}, u[m.trees[f][s] := false])
  {
    hide AllStored, Dense, CountFree;
  }

  /** Block 0 is the root directory's, so the blocks of another file are positive: `> 0` means used. */
  lemma PositiveBlocks(m: Image, f: int)
    requires Core(m) && 0 < f < 128
    ensures forall s :: s in m.trees[f] ==> 0 < m.trees[f][s] < NUM_BLOCKS
  {
    hide AllStored, Dense, CountFree;
  }

  /** Entries j < 100 of an index buffer are the data slots base + j. */
  ghost predicate IsRun(buf: Block, t: Tree, base: int) {
    forall j {:trigger ShortAt(buf, j)} :: 0 <= j < 100 ==>
      if Data(base + j) in t then ShortAt(buf, j) == t[Data(base + j)] else ShortAt(buf, j) < 0
  }

  lemma SingleRun(d: seq<Block>, bl: BlockList, t: Tree)
    requires Stored(d, bl, t) && Single in t
    ensures bl[10] == t[Single] && IsRun(Rd(d, t[Single]), t, 10)
  {
    assert SlotStored(d, bl, t, Single);
    forall j | 0 <= j < 100
      ensures if Data(10 + j) in t then ShortAt(Rd(d, t[Single]), j) == t[Data(10 + j)] else ShortAt(Rd(d, t[Single]), j) < 0
    {
      assert SlotStored(d, bl, t, Data(10 + j));
    }
  }

  lemma SubRun(d: seq<Block>, bl: BlockList, t: Tree, i: int)
    requires Stored(d, bl, t) && 0 <= i < 10 && Sub(i) in t
    ensures IsRun(Rd(d, t[Sub(i)]), t, 110 + 100 * i)
  {
    var buf := Rd(d, t[Sub(i)]);
    forall j | 0 <= j < 100
      ensures if Data(110 + 100 * i + j) in t then ShortAt(buf, j) == t[Data(110 + 100 * i + j)] else ShortAt(buf, j) < 0
    {
      var k := 110 + 100 * i + j;
      assert (k - 110) / 100 == i && (k - 110) % 100 == j;
      assert SlotStored(d, bl, t, Data(k));
    }
  }

  /** Entries j < 10 of the double-indirect block are the slots Sub(j). */
  lemma DoubleRun(d: seq<Block>, bl: BlockList, t: Tree)
    requires Stored(d, bl, t) && Double in t
    ensures bl[11] == t[Double]
    ensures forall j :: 0 <= j < 10 ==>
              if Sub(j) in t then ShortAt(Rd(d, t[Double]), j) == t[Sub(j)] else ShortAt(Rd(d, t[Double]), j) < 0
  {
    assert SlotStored(d, bl, t, Double);
    forall j | 0 <= j < 10
      ensures if Sub(j) in t then ShortAt(Rd(d, t[Double]), j) == t[Sub(j)] else ShortAt(Rd(d, t[Double]), j) < 0
    {
      assert SlotStored(d, bl, t, Sub(j));
    }
  }

  /** Owners once inode f gave up its tree. */
  function Disowned(owner: seq<Owner>, f: int): (o: seq<Owner>)
    ensures |o| == |owner|
    ensures forall b :: 0 <= b < |owner| ==> o[b] == if owner[b].Owned? && owner[b].f == f then Nobody else owner[b]
  {
    seq(|owner|, b requires 0 <= b < |owner| => if owner[b].Owned? && owner[b].f == f then Nobody else owner[b])
  }

  /** A free inode: zeroed but for its block list. */
  predicate Blank(i: Inode) {
    i == Inode(false, false, 0, 0, 0, i.blocks)
  }

  /** The image after the last link of inode f is gone: exactly its blocks are FREE, nothing else changed. */
  ghost predicate Unlinked(m: Image, f: int, m': Image)
    requires Shape(m) && 0 <= f < 128
  {
    && Shape(m')
    && m'.disk == m.disk
    && m'.owner == Disowned(m.owner, f)
    && m'.trees == m.trees[f := map[]]
    && m'.inodes == m.inodes[f := m'.inodes[f]]
    && Blank(m'.inodes[f])
    && (forall b :: 0 <= b < NUM_BLOCKS ==> m'.used[b] == (m.used[b] && !(m.owner[b].Owned? && m.owner[b].f == f)))
  }

  lemma UnlinkedCore(m: Image, f: int, m': Image)
    requires Core(m) && 0 < f < 128 && m.inodes[f].avail
    requires Unlinked(m, f, m')
    ensures Core(m')
  {
    hide Stored, Dense, CountFree;
  }

  /** When every slot of the tree was released, exactly the blocks of f are free. */
  lemma AllReleased(m: Image, f: int, done: set<Slot>, u: seq<bool>)
    requires Core(m) && 0 <= f < 128 && Released(m, f, done, u) && m.trees[f].Keys <= done
    ensures forall b :: 0 <= b < NUM_BLOCKS ==> u[b] == (m.used[b] && !(m.owner[b].Owned? && m.owner[b].f == f))
  {
    hide AllStored, Dense, CountFree;
  }

  /** The first unused data slot ends the file: breaking off there loses nothing. */
  lemma DenseStops(t: Tree, n: int, from: int, at: int)
    requires Dense(t, n) && 0 <= from <= at < from + 100 && from <= 1010 && Data(at) !in t
    ensures Run(t, from, from + 100) == Run(t, from, at)
  {
    forall k | at <= k
      ensures Data(k) !in t
    {
    }
  }

  /** Slots of the double-indirect part that the first i index blocks cover. */
  predicate BelowSub(s: Slot, i: int) {
    (s.Sub? && 0 <= s.j < i) || (s.Data? && 110 <= s.i < 110 + 100 * i)
  }

  lemma DenseEnds(t: Tree, n: int, i: int)
    requires Dense(t, n) && 0 <= i < 10 && Sub(i) !in t
    ensures forall s :: s in t && BelowSub(s, 10) ==> BelowSub(s, i)
  {
  }

  lemma DoubleUsed(d: seq<Block>, bl: BlockList, t: Tree, n: int)
    requires Stored(d, bl, t) && Dense(t, n)
    ensures if Double in t then bl[11] == t[Double] else bl[11] < 0
    ensures forall s :: s in t && BelowSub(s, 10) ==> Double in t
    ensures forall s :: s in t && (s.Sub? || (s.Data? && s.i >= 110)) ==> BelowSub(s, 10)
  {
    assert SlotStored(d, bl, t, Double);
  }

  lemma SingleUsed(d: seq<Block>, bl: BlockList, t: Tree, n: int)
    requires Stored(d, bl, t) && Dense(t, n)
    ensures if Single in t then bl[10] == t[Single] else bl[10] < 0
    ensures forall s :: s in t && s.Data? && 10 <= s.i < 110 ==> Single in t
  {
    assert SlotStored(d, bl, t, Single);
  }

  lemma DirectUsed(d: seq<Block>, bl: BlockList, t: Tree, i: int)
    requires Stored(d, bl, t) && 0 <= i < 10
    ensures if Data(i) in t then bl[i] == t[Data(i)] && bl[i] >= 0 else bl[i] < 0
  {
    assert SlotStored(d, bl, t, Data(i));
  }

  lemma ReleasedNone(m: Image, f: int)
    requires Shape(m)
    ensures Released(m, f, {}, m.used)
  {
  }

  lemma SlotKinds(d: seq<Block>, bl: BlockList, t: Tree)
    requires Stored(d, bl, t)
    ensures forall s :: s in t && s.Data? ==> 0 <= s.i
  {
  }
}
