/** The direct / single-indirect / double-indirect block tree of an inode as a plain map from slots to
    block numbers, and who owns which disk block (asst3/assignment3/src/sfs.c:158-236). */
module IndexTree {
  import opened Blocks

  /** Every place in an inode's tree that can hold a block number. */
  datatype Slot =
    | Data(i: int)   // data block number i of the file
    | Single         // blocks[10], the single-indirect block
    | Double         // blocks[11], the double-indirect block
    | Sub(j: int)    // entry j of the double-indirect block

  /** A block number, or -1 for none. */
  type BlockNo = x: int | -1 <= x < 32768

  /** `short blocks[12]` of inode_t */
  type BlockList = b: seq<BlockNo> | |b| == 12 witness seq(12, i => -1)

  predicate ValidSlot(s: Slot) {
    match s
    case Data(i) => 0 <= i < 1110
    case Single => true
    case Double => true
    case Sub(j) => 0 <= j < 10
  }

  /** Slots stored in the inode itself rather than in an index block. */
  predicate Top(s: Slot) {
    match s
    case Data(i) => i < 10
    case Single => true
    case Double => true
    case Sub(j) => false
  }

  /** The position of a top slot in `blocks`. */
  function TopPos(s: Slot): (k: int)
    requires ValidSlot(s) && Top(s)
    ensures 0 <= k < 12
  {
    match s
    case Data(i) => i
    case Single => 10
    case Double => 11
  }

  /** The index block in which a non-top slot is stored. */
  function Parent(s: Slot): (p: Slot)
    requires ValidSlot(s) && !Top(s)
    ensures ValidSlot(p) && !p.Data?
  {
    match s
    case Data(i) => if i < 110 then Single else Sub((i - 110) / 100)
    case Sub(j) => Double
  }

  /** The position of a non-top slot in its index block. */
  function Pos(s: Slot): (k: int)
    requires ValidSlot(s) && !Top(s)
    ensures 0 <= k < 100
    ensures s.Sub? ==> k < 10
  {
    match s
    case Data(i) => if i < 110 then i - 10 else (i - 110) % 100
    case Sub(j) => j
  }

  /** The abstract tree: the slots that hold a block, and the block each holds. */
  type Tree = map<Slot, int>

  /** Slot s of tree t is stored as `blocks` and the index blocks on disk d say. */
  predicate SlotStored(d: seq<Block>, bl: BlockList, t: Tree, s: Slot)
    requires ValidSlot(s)
  {
    if Top(s) then
      if s in t then t[s] == bl[TopPos(s)] && t[s] >= 0 else bl[TopPos(s)] < 0
    else if Parent(s) in t then
      var e := ShortAt(Rd(d, t[Parent(s)]), Pos(s));
      if s in t then t[s] == e && e >= 0 else e < 0
    else
      s !in t
  }

  ghost predicate Stored(d: seq<Block>, bl: BlockList, t: Tree) {
    && (forall s :: s in t ==> ValidSlot(s))
    && (forall s {:trigger SlotStored(d, bl, t, s)} :: ValidSlot(s) ==> SlotStored(d, bl, t, s))
  }

  // ---------------------------------------------------------------- ownership

  datatype Owner =
    | Nobody                 // FREE
    | Held                   // handed out by get_block, not yet stored in a tree
    | Owned(f: int, s: Slot) // stored in slot s of inode f

  /** `owner` records every tree exactly; so no block is in two slots. */
  ghost predicate Exact(trees: seq<Tree>, owner: seq<Owner>) {
    && (forall f, s :: 0 <= f < |trees| && s in trees[f] ==>
          0 <= trees[f][s] < |owner| && owner[trees[f][s]] == Owned(f, s))
    && (forall b :: 0 <= b < |owner| && owner[b].Owned? ==>
          0 <= owner[b].f < |trees| && owner[b].s in trees[owner[b].f] && trees[owner[b].f][owner[b].s] == b)
  }

  /** A tree depends only on its own index blocks. */
  lemma StoredFrame(d: seq<Block>, bl: BlockList, t: Tree, d': seq<Block>)
    requires Stored(d, bl, t)
    requires |d| == |d'|
    requires forall s :: s in t && !s.Data? && 0 <= t[s] < |d| ==> d'[t[s]] == d[t[s]]
    ensures Stored(d', bl, t)
  {
    forall s | ValidSlot(s)
      ensures SlotStored(d', bl, t, s)
    {
      assert SlotStored(d, bl, t, s);
    }
  }

  /** What the index code changes on disk and in `blocks` to store block v in the empty slot s. */
  ghost predicate Attaches(d: seq<Block>, bl: BlockList, t: Tree, s: Slot, v: int, d': seq<Block>, bl': BlockList)
    requires ValidSlot(s)
  {
    && |d'| == |d| && 0 <= v < |d|
    && (s.Data? || AllNegative(d'[v], if s == Double then 10 else 100))
    && (if Top(s) then
          && v < 32768
          && bl' == bl[TopPos(s) := v]
          && (forall b :: 0 <= b < |d| && b != v ==> d'[b] == d[b])
        else
          && bl' == bl
          && Parent(s) in t && 0 <= t[Parent(s)] < |d| && t[Parent(s)] != v
          && (forall b :: 0 <= b < |d| && b != v && b != t[Parent(s)] ==> d'[b] == d[b])
          && (forall j :: 0 <= j < 100 ==>
                ShortAt(d'[t[Parent(s)]], j) == if j == Pos(s) then v else ShortAt(d[t[Parent(s)]], j)))
  }

  /** Storing a block that is in no slot of the tree adds exactly that slot. */
  lemma AttachStored(d: seq<Block>, bl: BlockList, t: Tree, s: Slot, v: int, d': seq<Block>, bl': BlockList)
    requires Stored(d, bl, t)
    requires ValidSlot(s) && s !in t
    requires Attaches(d, bl, t, s, v, d', bl')
    requires forall r :: r in t ==> t[r] != v
    requires forall r :: r in t && !Top(s) && r != Parent(s) ==> t[r] != t[Parent(s)]
    requires forall r :: r in t ==> 0 <= t[r] < |d|
    ensures Stored(d', bl', t[s := v])
  {
    forall r | ValidSlot(r)
      ensures SlotStored(d', bl', t[s := v], r)
    {
      assert SlotStored(d, bl, t, r);
    }
  }

  lemma AttachExact(trees: seq<Tree>, owner: seq<Owner>, f: int, s: Slot, v: int)
    requires Exact(trees, owner)
    requires 0 <= f < |trees| && s !in trees[f] && 0 <= v < |owner| && owner[v] == Held
    ensures Exact(trees[f := trees[f][s := v]], owner[v := Owned(f, s)])
  {
  }
}
