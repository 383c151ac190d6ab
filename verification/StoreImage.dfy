/** Snapshots of the block store, and what one set_block_index call does to them
    (asst3/assignment3/src/sfs.c:158-236). */
module StoreImage {
  import opened Blocks
  import opened FreeCount
  import opened IndexTree

  /** inode_t: the metadata the block code uses. */
  datatype Inode = Inode(avail: bool, isDir: bool, nlink: int, size: int, nblocks: int, blocks: BlockList)

  /** A snapshot of the whole store; `trees` and `owner` are the abstract view of the rest. */
  datatype Image = Image(disk: seq<Block>, used: seq<bool>, inodes: seq<Inode>, trees: seq<Tree>, owner: seq<Owner>)

  ghost predicate Shape(m: Image) {
    && |m.disk| == |m.used| == |m.owner| == NUM_BLOCKS
    && |m.inodes| == |m.trees| == 128
    && (forall b :: 0 <= b < NUM_BLOCKS ==> (m.used[b] <==> m.owner[b] != Nobody))
  }

  /** The inode of each allocated file stores its tree; free inodes have none. */
  ghost predicate AllStored(m: Image)
    requires |m.inodes| == |m.trees|
  {
    forall f :: 0 <= f < |m.inodes| ==>
      if m.inodes[f].avail then Stored(m.disk, m.inodes[f].blocks, m.trees[f]) else m.trees[f] == map[]
  }

  /** All trees are disjoint, and exactly the blocks in them and the held ones are ALLOCD. */
  ghost predicate Structured(m: Image) {
    Shape(m) && AllStored(m) && Exact(m.trees, m.owner)
  }

  /** The slots set_block_index passes through on its way to data block n. */
  function Path(n: int): set<Slot> {
    if n < 10 then {Data(n)}
    else if n < 110 then {Single, Data(n)}
    else {Double, Sub((n - 110) / 100), Data(n)}
  }

  /** How many index blocks set_block_index must allocate for data block n. */
  function MissingIndex(t: Tree, n: int): (k: int)
    ensures 0 <= k <= 2
  {
    if n < 10 then 0
    else if n < 110 then (if Single in t then 0 else 1)
    else (if Double in t then 0 else 1) + (if Sub((n - 110) / 100) in t then 0 else 1)
  }

  /** Blocks whose bytes the index code must not touch: file data, and blocks in the caller's hands. */
  predicate Payload(o: Owner) {
    o == Held || (o.Owned? && o.s.Data?)
  }

  /** When set_block_index may be asked to store v as data block n of inode f. */
  ghost predicate CanSet(m: Image, f: int, n: int, v: int) {
    && Shape(m)
    && 0 <= f < 128 && m.inodes[f].avail
    && 0 <= n < 1110 && Data(n) !in m.trees[f]
    && 0 <= v < NUM_BLOCKS && m.owner[v] == Held
    && CountFree(m.used) >= MissingIndex(m.trees[f], n)
  }

  /** The parts of the image outside the tree of inode f that index updates leave alone. */
  ghost predicate Untouched(m: Image, f: int, m': Image)
    requires |m.disk| == |m.owner| == |m'.disk| && |m.inodes| == |m'.inodes| == |m.trees| && 0 <= f < |m.inodes|
  {
    && m'.inodes == m.inodes[f := m.inodes[f].(blocks := m'.inodes[f].blocks)]
    && (forall b :: 0 <= b < |m.disk| && Payload(m.owner[b]) ==> m'.disk[b] == m.disk[b])
  }

  /** What set_block_index guarantees: the tree of f maps n to v, all other slots of all inodes are as before but
      for the index blocks the path was missing, no data block is touched, and only those blocks are allocated. */
  ghost predicate IsSet(m: Image, f: int, n: int, v: int, m': Image)
    requires CanSet(m, f, n, v)
  {
    && Shape(m')
    && Untouched(m, f, m')
    && m'.trees == m.trees[f := m'.trees[f]]
    && m'.trees[f].Keys == m.trees[f].Keys + Path(n)
    && Data(n) in m'.trees[f] && m'.trees[f][Data(n)] == v
    && (forall s :: s in m.trees[f] ==> m'.trees[f][s] == m.trees[f][s])
    && (forall b :: 0 <= b < NUM_BLOCKS && m'.owner[b] == Held ==> b != v && m.owner[b] == Held)
    && (forall b :: 0 <= b < NUM_BLOCKS && b != v && m.owner[b] == Held ==> m'.owner[b] == Held)
    && CountFree(m'.used) == CountFree(m.used) - MissingIndex(m.trees[f], n)
  }

  // ------------------------------------------------ the steps of set_block_index

  /** get_block took b. */
  ghost predicate Takes(m: Image, b: int, m': Image) {
    && Shape(m) && Shape(m')
    && 0 <= b < NUM_BLOCKS && m.owner[b] == Nobody
    && m' == m.(used := m'.used, owner := m.owner[b := Held])
    && CountFree(m'.used) == CountFree(m.used) - 1
  }

  lemma TakesKeepsTrees(m: Image, b: int, m': Image)
    requires Structured(m) && Takes(m, b, m')
    ensures Structured(m')
  {
  }

  /** Block v moved from the caller's hands into slot s of inode f. */
  ghost predicate Attached(m: Image, f: int, s: Slot, v: int, m': Image) {
    && Shape(m) && Shape(m')
    && 0 <= f < 128 && s !in m.trees[f] && 0 <= v < NUM_BLOCKS && m.owner[v] == Held
    && m'.used == m.used
    && m'.trees == m.trees[f := m.trees[f][s := v]]
    && m'.owner == m.owner[v := Owned(f, s)]
    && m'.inodes == m.inodes[f := m.inodes[f].(blocks := m'.inodes[f].blocks)]
    && (forall b :: 0 <= b < NUM_BLOCKS && Payload(m.owner[b]) && (b != v || s.Data?) ==> m'.disk[b] == m.disk[b])
  }

  lemma AttachImage(m: Image, f: int, s: Slot, v: int, m': Image)
    requires Structured(m)
    requires 0 <= f < 128 && m.inodes[f].avail && ValidSlot(s) && s !in m.trees[f]
    requires 0 <= v < NUM_BLOCKS && m.owner[v] == Held
    requires |m'.inodes| == 128
    requires Attaches(m.disk, m.inodes[f].blocks, m.trees[f], s, v, m'.disk, m'.inodes[f].blocks)
    requires s.Data? ==> m'.disk[v] == m.disk[v]
    requires m'.used == m.used
    requires m'.trees == m.trees[f := m.trees[f][s := v]]
    requires m'.owner == m.owner[v := Owned(f, s)]
    requires m'.inodes == m.inodes[f := m.inodes[f].(blocks := m'.inodes[f].blocks)]
    ensures Structured(m') && Attached(m, f, s, v, m')
  {
    AttachExact(m.trees, m.owner, f, s, v);
    AttachStored(m.disk, m.inodes[f].blocks, m.trees[f], s, v, m'.disk, m'.inodes[f].blocks);
    forall g | 0 <= g < 128 && g != f && m.inodes[g].avail
      ensures Stored(m'.disk, m'.inodes[g].blocks, m'.trees[g])
    {
      StoredFrame(m.disk, m.inodes[g].blocks, m.trees[g], m'.disk);
    }
  }

  /** The image after block v went into a slot kept in the inode; `fill` is what the block then holds. */
  ghost function PutTop(m: Image, f: int, s: Slot, v: short, fill: Block): Image
    requires Shape(m) && 0 <= f < 128 && ValidSlot(s) && Top(s) && 0 <= v < NUM_BLOCKS
  {
    m.(disk := m.disk[v := fill],
       inodes := m.inodes[f := m.inodes[f].(blocks := m.inodes[f].blocks[TopPos(s) := v])],
       trees := m.trees[f := m.trees[f][s := v]],
       owner := m.owner[v := Owned(f, s)])
  }

  /** The image after block v went into a slot kept in an index block. */
  ghost function PutEntry(m: Image, f: int, s: Slot, v: short, fill: Block): Image
    requires Shape(m) && 0 <= f < 128 && ValidSlot(s) && !Top(s) && 0 <= v < NUM_BLOCKS
    requires Parent(s) in m.trees[f] && 0 <= m.trees[f][Parent(s)] < NUM_BLOCKS
  {
    var p := m.trees[f][Parent(s)];
    m.(disk := m.disk[p := PutShort(m.disk[p], Pos(s), v)][v := fill],
       trees := m.trees[f := m.trees[f][s := v]],
       owner := m.owner[v := Owned(f, s)])
  }

  /** The disk is as in image m but for block p, whose new contents are still in the buffer. */
  ghost predicate Buffered(now: Image, m: Image, p: int, buf: Block) {
    && Shape(m)
    && 0 <= p < NUM_BLOCKS && |now.disk| == NUM_BLOCKS
    && now == m.(disk := now.disk)
    && now.disk[p := buf] == m.disk
  }

  lemma TopPut(m: Image, f: int, s: Slot, v: short, fill: Block)
    requires Structured(m)
    requires 0 <= f < 128 && m.inodes[f].avail && ValidSlot(s) && Top(s) && s !in m.trees[f]
    requires 0 <= v < NUM_BLOCKS && m.owner[v] == Held
    requires if s.Data? then fill == m.disk[v] else AllNegative(fill, if s == Double then 10 else 100)
    ensures var m' := PutTop(m, f, s, v, fill); Structured(m') && Attached(m, f, s, v, m')
  {
    AttachImage(m, f, s, v, PutTop(m, f, s, v, fill));
  }

  lemma EntryPut(m: Image, f: int, s: Slot, v: short, fill: Block)
    requires Structured(m)
    requires 0 <= f < 128 && m.inodes[f].avail && ValidSlot(s) && !Top(s) && s !in m.trees[f] && Parent(s) in m.trees[f]
    requires 0 <= v < NUM_BLOCKS && m.owner[v] == Held
    requires if s.Data? then fill == m.disk[v] else AllNegative(fill, 100)
    ensures var m' := PutEntry(m, f, s, v, fill); Structured(m') && Attached(m, f, s, v, m')
  {
    var p := m.trees[f][Parent(s)];
    assert m.owner[p] == Owned(f, Parent(s));
    PutGet(m.disk[p], Pos(s), v);
    AttachImage(m, f, s, v, PutEntry(m, f, s, v, fill));
  }

  // The three tiers of set_block_index, on images. Each lemma covers one way through the code.

  lemma DirectSet(m: Image, f: int, n: int, v: short)
    requires Structured(m) && CanSet(m, f, n, v) && n < 10
    ensures var m' := PutTop(m, f, Data(n), v, m.disk[v]); Structured(m') && IsSet(m, f, n, v, m')
  {
    TopPut(m, f, Data(n), v, m.disk[v]);
    SetDone0(m, f, n, v, PutTop(m, f, Data(n), v, m.disk[v]));
  }

  lemma EntrySet(m: Image, f: int, n: int, v: short)
    requires Structured(m) && CanSet(m, f, n, v) && 10 <= n && MissingIndex(m.trees[f], n) == 0
    ensures var m' := PutEntry(m, f, Data(n), v, m.disk[v]); Structured(m') && IsSet(m, f, n, v, m')
  {
    EntryPut(m, f, Data(n), v, m.disk[v]);
    SetDone0(m, f, n, v, PutEntry(m, f, Data(n), v, m.disk[v]));
  }

  lemma NewSingleSet(m: Image, f: int, n: int, v: short, b: short, m1: Image, fill: Block)
    requires Structured(m) && CanSet(m, f, n, v) && 10 <= n < 110 && Single !in m.trees[f]
    requires Takes(m, b, m1) && AllNegative(fill, 100)
    ensures var m2 := PutTop(m1, f, Single, b, fill);
            var m' := PutEntry(m2, f, Data(n), v, m2.disk[v]); Structured(m') && IsSet(m, f, n, v, m')
  {
    hide AllStored, Exact, IsSet;
    TakesKeepsTrees(m, b, m1);
    TopPut(m1, f, Single, b, fill);
    var m2 := PutTop(m1, f, Single, b, fill);
    EntryPut(m2, f, Data(n), v, m2.disk[v]);
    SetDone1(m, f, n, v, b, m1, Single, m2, PutEntry(m2, f, Data(n), v, m2.disk[v]));
  }

  lemma NewSubSet(m: Image, f: int, n: int, v: short, b: short, m1: Image, fill: Block)
    requires Structured(m) && CanSet(m, f, n, v) && 110 <= n
    requires Double in m.trees[f] && Sub((n - 110) / 100) !in m.trees[f]
    requires Takes(m, b, m1) && AllNegative(fill, 100)
    ensures var m2 := PutEntry(m1, f, Sub((n - 110) / 100), b, fill);
            var m' := PutEntry(m2, f, Data(n), v, m2.disk[v]); Structured(m') && IsSet(m, f, n, v, m')
  {
    assert m.owner[m.trees[f][Double]] == Owned(f, Double);
    hide AllStored, Exact, IsSet;
    TakesKeepsTrees(m, b, m1);
    EntryPut(m1, f, Sub((n - 110) / 100), b, fill);
    var m2 := PutEntry(m1, f, Sub((n - 110) / 100), b, fill);
    EntryPut(m2, f, Data(n), v, m2.disk[v]);
    SetDone1(m, f, n, v, b, m1, Sub((n - 110) / 100), m2, PutEntry(m2, f, Data(n), v, m2.disk[v]));
  }

  lemma NewDoubleSet(m: Image, f: int, n: int, v: short, b: short, m1: Image, fill: Block, c: short, m3: Image, subFill: Block)
    requires Structured(m) && CanSet(m, f, n, v) && 110 <= n
    requires Double !in m.trees[f] && Sub((n - 110) / 100) !in m.trees[f]
    requires Takes(m, b, m1) && AllNegative(fill, 10)
    requires Takes(PutTop(m1, f, Double, b, fill), c, m3) && AllNegative(subFill, 100)
    ensures var m4 := PutEntry(m3, f, Sub((n - 110) / 100), c, subFill);
            var m' := PutEntry(m4, f, Data(n), v, m4.disk[v]); Structured(m') && IsSet(m, f, n, v, m')
  {
    hide AllStored, Exact, IsSet;
    TakesKeepsTrees(m, b, m1);
    TopPut(m1, f, Double, b, fill);
    var m2 := PutTop(m1, f, Double, b, fill);
    TakesKeepsTrees(m2, c, m3);
    EntryPut(m3, f, Sub((n - 110) / 100), c, subFill);
    var m4 := PutEntry(m3, f, Sub((n - 110) / 100), c, subFill);
    EntryPut(m4, f, Data(n), v, m4.disk[v]);
    SetDone2(m, f, n, v, b, m1, m2, c, m3, m4, PutEntry(m4, f, Data(n), v, m4.disk[v]));
  }

  /** The path to data block n already existed. */
  lemma SetDone0(m: Image, f: int, n: int, v: int, m': Image)
    requires CanSet(m, f, n, v) && MissingIndex(m.trees[f], n) == 0
    requires Attached(m, f, Data(n), v, m')
    ensures IsSet(m, f, n, v, m')
  {
  }

  /** One index block was missing. */
  lemma SetDone1(m: Image, f: int, n: int, v: int, b: int, m1: Image, x: Slot, m2: Image, m': Image)
    requires CanSet(m, f, n, v) && MissingIndex(m.trees[f], n) == 1
    requires !x.Data? && x in Path(n) && x !in m.trees[f]
    requires Takes(m, b, m1) && Attached(m1, f, x, b, m2) && Attached(m2, f, Data(n), v, m')
    ensures IsSet(m, f, n, v, m')
  {
  }

  /** The double-indirect block and the index block below it were missing. */
  lemma SetDone2(m: Image, f: int, n: int, v: int, b: int, m1: Image, m2: Image, c: int, m3: Image, m4: Image, m': Image)
    requires CanSet(m, f, n, v) && MissingIndex(m.trees[f], n) == 2
    requires Takes(m, b, m1) && Attached(m1, f, Double, b, m2)
    requires Takes(m2, c, m3) && Attached(m3, f, Sub((n - 110) / 100), c, m4)
    requires Attached(m4, f, Data(n), v, m')
    ensures IsSet(m, f, n, v, m')
  {
  }
}
