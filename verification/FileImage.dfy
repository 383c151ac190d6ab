/** Files on top of the block trees: which slots a file of n blocks uses, what its bytes are, and how it grows
    (asst3/assignment3/src/sfs.c:861-886). */
module FileImage {
  import opened Blocks
  import opened BlockCount
  import opened FreeCount
  import opened IndexTree
  import opened StoreImage

  /** The slots of a file of n blocks: data slots [0, n) and exactly the index blocks these need. */
  predicate Live(n: int, s: Slot) {
    match s
    case Data(i) => i < n
    case Single => n > 10
    case Double => n > 110
    case Sub(j) => n > 110 + 100 * j
  }

  ghost predicate Dense(t: Tree, n: int) {
    && 0 <= n <= 1110
    && (forall s :: s in t <==> ValidSlot(s) && Live(n, s))
  }

  /** How many index blocks a file of n data blocks has. */
  function IndexBlocks(n: int): int {
    if n <= 10 then 0 else if n <= 110 then 1 else 2 + (n - 110 + 99) / 100
  }

  lemma DenseMissing(t: Tree, n: int)
    requires Dense(t, n) && n < 1110
    ensures MissingIndex(t, n) == IndexBlocks(n + 1) - IndexBlocks(n)
  {
    assert Single in t <==> n > 10;
    assert Double in t <==> n > 110;
    if n >= 110 {
      var j := (n - 110) / 100;
      assert ValidSlot(Sub(j));
      assert Sub(j) in t <==> n > 110 + 100 * j;
    }
  }

  lemma DenseGrows(t: Tree, n: int, t': Tree)
    requires Dense(t, n) && n < 1110
    requires t'.Keys == t.Keys + Path(n)
    ensures Dense(t', n + 1)
  {
    forall s
      ensures s in t' <==> ValidSlot(s) && Live(n + 1, s)
    {
      assert s in t' <==> s in t || s in Path(n);
    }
  }

  /** The invariant of the block store between operations, whatever the file sizes say. */
  ghost predicate Core(m: Image) {
    && Structured(m)
    && (forall b :: 0 <= b < NUM_BLOCKS ==> m.owner[b] != Held)
    && (forall f :: 0 <= f < 128 && m.inodes[f].avail ==> Dense(m.trees[f], m.inodes[f].nblocks))
    && (forall f :: 0 <= f < 128 && m.inodes[f].avail && m.inodes[f].isDir ==> m.inodes[f].nblocks == 1)
    && m.inodes[0].avail && m.inodes[0].isDir && m.owner[0] == Owned(0, Data(0))
  }

  /** The block count of a file fits its size. */
  predicate Sized(i: Inode) {
    i.isDir || (0 <= i.size && i.nblocks == BlocksFor(i.size))
  }

  ghost predicate Valid(m: Image) {
    Core(m) && forall f :: 0 <= f < 128 && m.inodes[f].avail ==> Sized(m.inodes[f])
  }

  /** Byte k of a tree's data; bytes of unmapped blocks read as zero. */
  function ByteAt(d: seq<Block>, t: Tree, k: int): byte
    requires 0 <= k
  {
    Rd(d, if Data(k / 512) in t then t[Data(k / 512)] else -1)[k % 512]
  }

  /** The contents of inode f: st_size bytes of a file, the one block of a directory. */
  function Contents(m: Image, f: int): (c: seq<byte>)
    requires 0 <= f < |m.inodes| && |m.inodes| == |m.trees|
  {
    var n := if m.inodes[f].isDir then 512 else if m.inodes[f].size < 0 then 0 else m.inodes[f].size;
    seq(n, k requires 0 <= k => ByteAt(m.disk, m.trees[f], k))
  }

  /** Image m' is image m with inode f grown to k blocks: the mapped blocks of every inode, their bytes and all
      metadata are kept, and exactly the new data and index blocks were taken. */
  ghost predicate Grown(m: Image, f: int, k: int, m': Image)
    requires Shape(m) && 0 <= f < 128
  {
    && Shape(m')
    && m'.inodes == m.inodes[f := m.inodes[f].(blocks := m'.inodes[f].blocks, nblocks := k)]
    && m'.trees == m.trees[f := m'.trees[f]]
    && (forall s :: s in m.trees[f] ==> s in m'.trees[f] && m'.trees[f][s] == m.trees[f][s])
    && (forall b :: 0 <= b < NUM_BLOCKS && m.owner[b].Owned? && m.owner[b].s.Data? ==> m'.disk[b] == m.disk[b])
    && CountFree(m'.used) == CountFree(m.used) - Cost(m.inodes[f].nblocks, k)
  }

  /** Blocks taken when a file grows from n to k data blocks. */
  function Cost(n: int, k: int): int {
    k - n + IndexBlocks(k) - IndexBlocks(n)
  }

  /** Storing the block that was taken, as the next data block of file f, and counting it. */
  ghost predicate Steps(m: Image, f: int, b: int, m1: Image, m2: Image, m3: Image) {
    && Shape(m) && 0 <= f < 128
    && Takes(m, b, m1) && CanSet(m1, f, m.inodes[f].nblocks, b)
    && IsSet(m1, f, m.inodes[f].nblocks, b, m2)
    && m3 == m2.(inodes := m2.inodes[f := m2.inodes[f].(nblocks := m.inodes[f].nblocks + 1)])
  }

  lemma StepGrows(m: Image, f: int, b: int, m1: Image, m2: Image, m3: Image)
    requires Steps(m, f, b, m1, m2, m3)
    requires Dense(m.trees[f], m.inodes[f].nblocks)
    ensures Grown(m, f, m.inodes[f].nblocks + 1, m3)
  {
    DenseMissing(m.trees[f], m.inodes[f].nblocks);
    hide Dense, IndexBlocks, MissingIndex;
    assert m3.trees == m2.trees;
  }

  lemma StepStructured(f: int, n: int, m2: Image, m3: Image)
    requires Structured(m2) && 0 <= f < 128
    requires m3 == m2.(inodes := m2.inodes[f := m2.inodes[f].(nblocks := n)])
    ensures Structured(m3)
  {
    hide Stored, Exact;
  }

  /** A block stays in its slot as long as the slot keeps it. */
  lemma OwnerKept(m: Image, m': Image, b: int)
    requires Exact(m.trees, m.owner) && Exact(m'.trees, m'.owner)
    requires 0 <= b < |m.owner| && |m'.owner| == |m.owner| && |m'.trees| == |m.trees| && m.owner[b].Owned?
    requires forall f, s :: 0 <= f < |m.trees| && s in m.trees[f] ==> s in m'.trees[f] && m'.trees[f][s] == m.trees[f][s]
    ensures m'.owner[b] == m.owner[b]
  {
  }

  lemma GrowStep(m: Image, f: int, b: int, m1: Image, m2: Image, m3: Image)
    requires Core(m) && Steps(m, f, b, m1, m2, m3) && Structured(m2)
    requires m.inodes[f].avail && !m.inodes[f].isDir
    ensures Core(m3) && Grown(m, f, m.inodes[f].nblocks + 1, m3)
  {
    hide AllStored, Exact, Untouched, MissingIndex, Dense, Cost, Path, CountFree;
    var n := m.inodes[f].nblocks;
    StepStructured(f, n + 1, m2, m3);
    StepGrows(m, f, b, m1, m2, m3);
    DenseGrows(m.trees[f], n, m3.trees[f]);
    OwnerKept(m, m3, 0);
  }

  lemma GrownTwice(m: Image, f: int, k: int, m1: Image, k': int, m2: Image)
    requires Core(m) && 0 <= f < 128 && Grown(m, f, k, m1) && Core(m1) && Grown(m1, f, k', m2)
    ensures Grown(m, f, k', m2)
  {
    hide AllStored, Exact, Dense, IndexBlocks, CountFree;
    forall b | 0 <= b < NUM_BLOCKS && m.owner[b].Owned? && m.owner[b].s.Data?
      ensures m2.disk[b] == m.disk[b]
    {
      OwnerKept(m, m1, b);
    }
  }

  /** Rewriting a data block changes no tree. */
  lemma DataWrite(m: Image, b: int, buf: Block)
    requires Core(m) && 0 <= b < NUM_BLOCKS && m.owner[b].Owned? && m.owner[b].s.Data?
    ensures Core(m.(disk := m.disk[b := buf]))
  {
    var m' := m.(disk := m.disk[b := buf]);
    forall f | 0 <= f < 128 && m.inodes[f].avail
      ensures Stored(m'.disk, m.inodes[f].blocks, m.trees[f])
    {
      StoredFrame(m.disk, m.inodes[f].blocks, m.trees[f], m'.disk);
    }
  }

  /** Block b holds one of the data blocks [from, to) of inode f. */
  predicate InSpan(o: Owner, f: int, from: int, to: int) {
    o.Owned? && o.f == f && o.s.Data? && from <= o.s.i < to
  }

  /** Image m' is image m with the data blocks of f from number `start` on replaced by the blocks of `cont`. */
  ghost predicate Spanned(m: Image, f: int, start: int, cont: seq<byte>, n: int, m': Image)
    requires Shape(m) && 0 <= f < 128 && 0 <= n && 512 * n <= |cont|
  {
    && |m'.disk| == NUM_BLOCKS
    && m' == m.(disk := m'.disk)
    && (forall b :: 0 <= b < NUM_BLOCKS && !InSpan(m.owner[b], f, start, start + n) ==> m'.disk[b] == m.disk[b])
    && (forall b :: 0 <= b < NUM_BLOCKS && InSpan(m.owner[b], f, start, start + n) ==>
          var i := m.owner[b].s.i - start; m'.disk[b] == cont[512 * i..512 * i + 512])
  }

  /** Growing to k blocks leaves enough free blocks for the first of them and its index blocks. */
  lemma RoomForOne(t: Tree, n: int, k: int)
    requires Dense(t, n) && n < k <= 1110
    ensures Data(n) !in t && Cost(n, k) >= 1 + MissingIndex(t, n)
  {
    DenseMissing(t, n);
  }

  lemma CostAdds(n: int, k: int, k': int)
    requires n <= k < k'
    ensures Cost(n, k') == Cost(n, k) + Cost(k, k') && Cost(k, k + 1) <= Cost(k, k')
  {
  }

  lemma CoreParts(m: Image, f: int)
    requires Core(m) && 0 <= f < 128 && m.inodes[f].avail
    ensures Structured(m) && Dense(m.trees[f], m.inodes[f].nblocks)
    ensures Stored(m.disk, m.inodes[f].blocks, m.trees[f])
    ensures 0 <= m.inodes[f].nblocks <= 1110
  {
  }

  lemma CoreShape(m: Image)
    requires Core(m)
    ensures Shape(m)
  {
  }

  /** Where data block i of f lies, and that it is a data block of nobody else. */
  lemma DataBlock(m: Image, f: int, i: int)
    requires Core(m) && 0 <= f < 128 && m.inodes[f].avail && 0 <= i < m.inodes[f].nblocks
    ensures i < 1110 && Data(i) in m.trees[f]
    ensures 0 <= m.trees[f][Data(i)] < NUM_BLOCKS && m.owner[m.trees[f][Data(i)]] == Owned(f, Data(i))
  {
    CoreParts(m, f);
    assert ValidSlot(Data(i)) && Live(m.inodes[f].nblocks, Data(i));
  }

  /** One more block of the span written. */
  lemma SpanStep(m: Image, f: int, start: int, cont: seq<byte>, n: int, m1: Image, b: int)
    requires Shape(m) && Exact(m.trees, m.owner) && 0 <= f < 128 && 0 <= n && 512 * n + 512 <= |cont|
    requires Spanned(m, f, start, cont, n, m1)
    requires 0 <= b < NUM_BLOCKS && m.owner[b] == Owned(f, Data(start + n))
    ensures Spanned(m, f, start, cont, n + 1, m1.(disk := m1.disk[b := cont[512 * n..512 * n + 512]]))
  {
    forall c | 0 <= c < NUM_BLOCKS && InSpan(m.owner[c], f, start, start + n + 1) && !InSpan(m.owner[c], f, start, start + n)
      ensures c == b
    {
      assert m.trees[f][Data(start + n)] == c;
    }
  }

  lemma SpanNone(m: Image, f: int, start: int, cont: seq<byte>)
    requires Shape(m) && 0 <= f < 128
    ensures Spanned(m, f, start, cont, 0, m)
  {
  }

  /** The bytes of one data block. */
  lemma BlockBytes(d: seq<Block>, t: Tree, i: int)
    requires 0 <= i && Data(i) in t
    ensures forall j :: 0 <= j < 512 ==> ByteAt(d, t, 512 * i + j) == Rd(d, t[Data(i)])[j]
  {
    forall j | 0 <= j < 512
      ensures ByteAt(d, t, 512 * i + j) == Rd(d, t[Data(i)])[j]
    {
      assert (512 * i + j) / 512 == i && (512 * i + j) % 512 == j;
    }
  }

  /** The result of sfs_write at any offset up to the end of the file. The new bytes are stored, everything before
      them and after the last written block is kept; the rest of the last block is kept only if the write lies in
      one block, else zeroed; and st_size grows by the length of the write. */
  ghost predicate Written(m: Image, f: int, offset: int, data: seq<byte>, m': Image)
    requires Shape(m) && 0 <= f < 128 && 0 <= offset
  {
    var end := offset + |data|;
    var n := m.inodes[f].nblocks;
    && Shape(m')
    && m'.inodes == m.inodes[f := m.inodes[f].(blocks := m'.inodes[f].blocks, size := m.inodes[f].size + |data|,
                                               nblocks := if BlocksFor(end) > n then BlocksFor(end) else n)]
    && m'.trees == m.trees[f := m'.trees[f]]
    && (forall b :: 0 <= b < NUM_BLOCKS && m.owner[b].Owned? && m.owner[b].f != f && m.owner[b].s.Data? ==>
          m'.disk[b] == m.disk[b])
    && (forall k {:trigger ByteAt(m'.disk, m'.trees[f], k)} :: 0 <= k < 512 * m'.inodes[f].nblocks ==>
          ByteAfter(m, f, offset, data, m'.disk, m'.trees[f], k))
    && CountFree(m'.used) == CountFree(m.used) - Cost(n, m'.inodes[f].nblocks)
  }

  predicate ByteAfter(m: Image, f: int, offset: int, data: seq<byte>, d': seq<Block>, t': Tree, k: int)
    requires |m.inodes| == |m.trees| && 0 <= f < |m.trees| && 0 <= offset && 0 <= k
  {
    var end := offset + |data|;
    var now := ByteAt(d', t', k);
    if offset <= k < end then
      now == data[k - offset]
    else if end <= k < 512 * BlocksFor(end) && offset / 512 + 1 < BlocksFor(end) then
      now == 0
    else
      k < 512 * m.inodes[f].nblocks ==> now == ByteAt(m.disk, m.trees[f], k)
  }

  /** Growing keeps the bytes of the blocks that were mapped before. */
  lemma GrownByte(m: Image, f: int, n: int, g: Image, k: int)
    requires Core(m) && 0 <= f < 128 && m.inodes[f].avail && Grown(m, f, n, g)
    requires 0 <= k < 512 * m.inodes[f].nblocks
    ensures ByteAt(g.disk, g.trees[f], k) == ByteAt(m.disk, m.trees[f], k)
  {
    hide Structured, Dense;
    CoreShape(m);
    DataBlock(m, f, k / 512);
  }

  /** A byte after the write-back loop: from the buffer inside the span, from the disk outside. */
  lemma SpanByte(g: Image, f: int, start: int, cont: seq<byte>, wb: int, h: Image, k: int)
    requires Core(g) && 0 <= f < 128 && g.inodes[f].avail && 0 <= start && 0 <= wb && 512 * wb == |cont|
    requires Spanned(g, f, start, cont, wb, h)
    requires 0 <= k < 512 * g.inodes[f].nblocks
    ensures ByteAt(h.disk, h.trees[f], k) ==
            if 512 * start <= k < 512 * (start + wb) then cont[k - 512 * start] else ByteAt(g.disk, g.trees[f], k)
  {
    hide Core, Structured, Dense;
    CoreShape(g);
    DataBlock(g, f, k / 512);
    var b, i := g.trees[f][Data(k / 512)], k / 512 - start;
    if 512 * start <= k < 512 * (start + wb) {
      assert InSpan(g.owner[b], f, start, start + wb);
      assert h.disk[b] == cont[512 * i..512 * i + 512];
      assert k - 512 * start == 512 * i + k % 512;
    }
  }

  /** The buffer that sfs_write writes back: the old first block, zeroes, and the data over them. */
  function Overlay(first: Block, wb: int, blockOffset: int, data: seq<byte>): (cont: seq<byte>)
    requires 0 <= blockOffset < 512 && 1 <= wb && blockOffset + |data| <= 512 * wb
    ensures |cont| == 512 * wb
  {
    var zeroed := first + seq(512 * (wb - 1), i => 0);
    zeroed[..blockOffset] + data + zeroed[blockOffset + |data|..]
  }

  /** The write-back stored the overlay of data on the first block. */
  ghost predicate WroteBack(g: Image, f: int, offset: int, data: seq<byte>, first: Block, h: Image)
    requires Shape(g) && 0 <= f < 128 && 0 <= offset && |data| > 0
  {
    var wb := BlocksFor(offset % 512 + |data|);
    && (forall j :: 0 <= j < 512 ==> first[j] == ByteAt(g.disk, g.trees[f], 512 * (offset / 512) + j))
    && Spanned(g, f, offset / 512, Overlay(first, wb, offset % 512, data), wb, h)
  }

  lemma WriteByte(m: Image, f: int, offset: int, data: seq<byte>, g: Image, first: Block, h: Image, k: int)
    requires Core(m) && 0 <= f < 128 && m.inodes[f].avail && Core(g) && Grown(m, f, g.inodes[f].nblocks, g)
    requires g.inodes[f].avail
    requires 0 <= offset && |data| > 0 && BlocksFor(offset + |data|) <= g.inodes[f].nblocks
    requires WroteBack(g, f, offset, data, first, h) && |h.trees| == |g.trees|
    requires 0 <= k < 512 * g.inodes[f].nblocks
    ensures ByteAfter(m, f, offset, data, h.disk, h.trees[f], k)
  {
    hide Core, Structured, Dense, Spanned, Grown, ByteAt;
    CoreShape(m);
    CoreShape(g);
    var start, bo := offset / 512, offset % 512;
    var wb := BlocksFor(bo + |data|);
    var cont := Overlay(first, wb, bo, data);
    SpanEnd(offset, |data|);
    SpanByte(g, f, start, cont, wb, h, k);
    if k < 512 * m.inodes[f].nblocks {
      GrownByte(m, f, g.inodes[f].nblocks, g, k);
    }
    if 512 * start <= k < 512 * start + 512 {
      assert first[k - 512 * start] == ByteAt(g.disk, g.trees[f], 512 * start + (k - 512 * start));
    }
  }

  /** The write reaches no data block of another inode. */
  lemma OthersBytes(m: Image, f: int, n: int, g: Image, offset: int, data: seq<byte>, first: Block, h: Image)
    requires Core(m) && 0 <= f < 128 && Core(g) && Grown(m, f, n, g)
    requires 0 <= offset && |data| > 0 && WroteBack(g, f, offset, data, first, h)
    ensures forall b :: 0 <= b < NUM_BLOCKS && m.owner[b].Owned? && m.owner[b].f != f && m.owner[b].s.Data? ==>
              h.disk[b] == m.disk[b]
  {
    hide AllStored, Exact, Dense, CountFree;
    forall b | 0 <= b < NUM_BLOCKS && m.owner[b].Owned? && m.owner[b].f != f && m.owner[b].s.Data?
      ensures h.disk[b] == m.disk[b]
    {
      OwnerKept(m, g, b);
    }
  }

  lemma Resize(f: int, h: Image, size: int)
    requires Core(h) && 0 <= f < 128
    ensures Core(h.(inodes := h.inodes[f := h.inodes[f].(size := size)]))
  {
    hide Stored, Exact, Dense;
  }

  lemma WriteDone(m: Image, f: int, offset: int, data: seq<byte>, g: Image, first: Block, h: Image, m': Image)
    requires Core(m) && 0 <= f < 128 && m.inodes[f].avail && !m.inodes[f].isDir
    requires 0 <= offset && |data| > 0
    requires Core(g) && g.inodes[f].avail
    requires Grown(m, f, if BlocksFor(offset + |data|) > m.inodes[f].nblocks then BlocksFor(offset + |data|) else m.inodes[f].nblocks, g)
    requires Core(h) && h == g.(disk := h.disk) && WroteBack(g, f, offset, data, first, h)
    requires m' == h.(inodes := h.inodes[f := h.inodes[f].(size := m.inodes[f].size + |data|)])
    ensures Core(m') && Written(m, f, offset, data, m')
  {
    hide Structured, Dense, ByteAt, ByteAfter, Overlay, CountFree, Cost;
    CoreShape(m);
    CoreShape(h);
    forall k | 0 <= k < 512 * m'.inodes[f].nblocks
      ensures ByteAfter(m, f, offset, data, m'.disk, m'.trees[f], k)
    {
      WriteByte(m, f, offset, data, g, first, h, k);
    }
    OthersBytes(m, f, m'.inodes[f].nblocks, g, offset, data, first, h);
    Resize(f, h, m.inodes[f].size + |data|);
  }

  lemma GrownNone(m: Image, f: int)
    requires Shape(m) && 0 <= f < 128
    ensures Grown(m, f, m.inodes[f].nblocks, m)
  {
  }

  // ------------------------------------------------------------------ what a write means for the file contents

  /** The contents of every other inode survive. */
  ghost predicate OthersSame(m: Image, f: int, m': Image)
    requires Shape(m) && Shape(m')
  {
    forall g :: 0 <= g < 128 && g != f && m.inodes[g].avail ==>
      m'.inodes[g] == m.inodes[g] && m'.trees[g] == m.trees[g] && Contents(m', g) == Contents(m, g)
  }

  /** Same tree and same data blocks: same contents. */
  lemma ContentsFrame(m: Image, g: int, m': Image)
    requires Valid(m) && Shape(m') && 0 <= g < 128 && m.inodes[g].avail
    requires m'.inodes[g] == m.inodes[g] && m'.trees[g] == m.trees[g]
    requires forall b :: 0 <= b < NUM_BLOCKS && InSpan(m.owner[b], g, 0, 1110) ==> m'.disk[b] == m.disk[b]
    ensures Contents(m', g) == Contents(m, g)
  {
    hide Core, Structured, Dense;
    CoreShape(m);
    CoreParts(m, g);
    var n := |Contents(m, g)|;
    forall k | 0 <= k < n
      ensures Contents(m', g)[k] == Contents(m, g)[k]
    {
      SizeCovers(m, g, k);
      DataBlock(m, g, k / 512);
    }
  }

  /** Every byte of the contents lies in a mapped block. */
  lemma SizeCovers(m: Image, g: int, k: int)
    requires Valid(m) && 0 <= g < 128 && m.inodes[g].avail && 0 <= k < |Contents(m, g)|
    ensures 0 <= k / 512 < m.inodes[g].nblocks
  {
    hide Structured, Dense;
    CoreShape(m);
  }

  /** An append appends: the new contents are the old followed by the data, across all three index tiers, every
      other file keeps its contents, and the invariant is kept. */
  lemma AppendContents(m: Image, f: int, data: seq<byte>, m': Image)
    requires Valid(m) && 0 <= f < 128 && m.inodes[f].avail && !m.inodes[f].isDir && |data| > 0
    requires Core(m') && Written(m, f, m.inodes[f].size, data, m')
    ensures Valid(m') && Contents(m', f) == Contents(m, f) + data && OthersSame(m, f, m')
  {
    hide Structured, Dense, ByteAt;
    CoreShape(m);
    var size := m.inodes[f].size;
    BlocksMonotone(size, size + |data|);
    forall k | 0 <= k < size + |data|
      ensures Contents(m', f)[k] == (Contents(m, f) + data)[k]
    {
      assert ByteAfter(m, f, size, data, m'.disk, m'.trees[f], k);
      if k < size { SizeCovers(m, f, k); }
    }
    forall g | 0 <= g < 128 && g != f && m.inodes[g].avail
      ensures m'.inodes[g] == m.inodes[g] && m'.trees[g] == m.trees[g] && Contents(m', g) == Contents(m, g)
    {
      ContentsFrame(m, g, m');
    }
  }

  /** What pwrite promises: data replaces the bytes from offset on, and the file grows only past its end. */
  function Spliced(c: seq<byte>, offset: int, data: seq<byte>): seq<byte>
    requires 0 <= offset <= |c|
  {
    c[..offset] + data + (if offset + |data| <= |c| then c[offset + |data|..] else [])
  }

  /** At every offset the file starts with its old bytes and the new data; but because st_size grows by the whole
      length of the write, the contents are those of a POSIX write if and only if it starts at the end of the file. */
  lemma WriteIsPosixIffAppend(m: Image, f: int, offset: int, data: seq<byte>, m': Image)
    requires Valid(m) && 0 <= f < 128 && m.inodes[f].avail && !m.inodes[f].isDir && |data| > 0
    requires 0 <= offset <= m.inodes[f].size
    requires Core(m') && Written(m, f, offset, data, m')
    ensures Contents(m', f)[..offset + |data|] == Contents(m, f)[..offset] + data
    ensures Contents(m', f) == Spliced(Contents(m, f), offset, data) <==> offset == m.inodes[f].size
  {
    hide Structured, Dense, ByteAt, Core;
    CoreShape(m);
    if offset == m.inodes[f].size {
      AppendContents(m, f, data, m');
      assert Contents(m, f)[..offset] == Contents(m, f);
    }
    forall k | 0 <= k < offset + |data|
      ensures Contents(m', f)[k] == (Contents(m, f)[..offset] + data)[k]
    {
      assert ByteAfter(m, f, offset, data, m'.disk, m'.trees[f], k);
      if k < offset { SizeCovers(m, f, k); }
    }
  }

  /** A write that spans blocks zeroes the rest of its last block, which was not read before. */
  predicate Zeroed(offset: int, end: int, k: int) {
    offset / 512 + 1 < BlocksFor(end) && end <= k < 512 * BlocksFor(end)
  }

  lemma TailByte(m: Image, f: int, offset: int, data: seq<byte>, m': Image, k: int)
    requires Valid(m) && 0 <= f < 128 && m.inodes[f].avail && !m.inodes[f].isDir && |data| > 0
    requires 0 <= offset && offset + |data| <= k < m.inodes[f].size
    requires Core(m') && Written(m, f, offset, data, m')
    ensures |Contents(m, f)| == m.inodes[f].size && |Contents(m', f)| == m.inodes[f].size + |data|
    ensures Contents(m', f)[k] == if Zeroed(offset, offset + |data|, k) then 0 else Contents(m, f)[k]
  {
    hide Structured, Dense, ByteAt, Core;
    CoreShape(m);
    SizeCovers(m, f, k);
    assert ByteAfter(m, f, offset, data, m'.disk, m'.trees[f], k);
  }

  /** What lies after an overwritten range survives if and only if the write stays in one block, or what it zeroes of its
      last block was zero before. */
  lemma TailSurvivesIff(m: Image, f: int, offset: int, data: seq<byte>, m': Image)
    requires Valid(m) && 0 <= f < 128 && m.inodes[f].avail && !m.inodes[f].isDir && |data| > 0
    requires 0 <= offset && offset + |data| <= m.inodes[f].size
    requires Core(m') && Written(m, f, offset, data, m')
    ensures var end, size := offset + |data|, m.inodes[f].size;
            && |Contents(m, f)| == size <= |Contents(m', f)|
            && (Contents(m', f)[end..size] == Contents(m, f)[end..] <==>
                forall k :: end <= k < size && Zeroed(offset, end, k) ==> Contents(m, f)[k] == 0)
  {
    hide Core, Written, Contents, Zeroed;
    CoreShape(m);
    CoreShape(m');
    var end, size, c, c' := offset + |data|, m.inodes[f].size, Contents(m, f), Contents(m', f);
    ContentsSizes(m, f, offset, data, m');
    forall k | end <= k < size
      ensures c'[k] == if Zeroed(offset, end, k) then 0 else c[k]
    {
      TailByte(m, f, offset, data, m', k);
    }
    if c'[end..size] == c[end..] {
      assert forall k :: end <= k < size ==> c'[k] == c'[end..size][k - end] == c[end..][k - end] == c[k];
    } else {
      var j :| 0 <= j < size - end && c'[end..size][j] != c[end..][j];
      assert c'[end + j] != c[end + j];
    }
  }

  lemma ContentsSizes(m: Image, f: int, offset: int, data: seq<byte>, m': Image)
    requires Valid(m) && 0 <= f < 128 && m.inodes[f].avail && !m.inodes[f].isDir && 0 <= offset
    requires Core(m') && Written(m, f, offset, data, m')
    ensures |Contents(m, f)| == m.inodes[f].size && |Contents(m', f)| == m.inodes[f].size + |data|
  {
    hide Core, ByteAfter, ByteAt;
    CoreShape(m);
  }
}
