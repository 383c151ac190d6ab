/** The inode table, the block allocator and the file contents on top of them
    (asst3/assignment3/src/sfs.c:54-258, 778-915). */
module BlockStore {
  import opened Blocks
  import opened BlockCount
  import opened FreeCount
  import opened IndexTree
  import opened StoreImage
  import opened FileImage
  import opened FreeImage

  /** The bytes [offset, offset + size) of c, cut at its end. */
  function Window(c: seq<byte>, offset: int, size: int): (w: seq<byte>)
    ensures 0 <= offset <= |c| && 0 <= size ==>
              && |w| <= size && offset + |w| <= |c| && w == c[offset..offset + |w|]
              && (|w| == size || offset + |w| == |c|)
  {
    if 0 <= offset <= |c| && 0 <= size then c[offset..if offset + size < |c| then offset + size else |c|] else []
  }

  function Max(x: int, y: int): int {
    if x > y then x else y
  }

  class Store {
    const disk: array<Block>       // the disk file
    const used: array<bool>        // disk_blocks: ALLOCD or FREE
    const inodes: array<Inode>     // inode_table
    ghost var trees: seq<Tree>     // the tree each inode stores
    ghost var owner: seq<Owner>    // the slot each block is stored in

    /** Zeroed tables over a disk with any contents (sfs.c:396-403). */
    constructor (contents: seq<Block>)
      requires |contents| == NUM_BLOCKS
      ensures fresh(disk) && fresh(used) && fresh(inodes)
      ensures disk[..] == contents && used.Length == NUM_BLOCKS && inodes.Length == 128
      ensures forall b :: 0 <= b < NUM_BLOCKS ==> !used[b]
      ensures forall i :: 0 <= i < 128 ==> Blank(inodes[i])
      ensures trees == seq(128, i => map[]) && owner == seq(NUM_BLOCKS, b => Nobody)
    {
      disk := new Block[NUM_BLOCKS](i requires 0 <= i < |contents| => contents[i]);
      used := new bool[NUM_BLOCKS](i => false);
      inodes := new Inode[128](i => Inode(false, false, 0, 0, 0, seq(12, j => 0)));
      trees := seq(128, i => map[]);
      owner := seq(NUM_BLOCKS, b => Nobody);
    }

    ghost function M(): Image
      reads this, disk, used, inodes
    {
      Image(disk[..], used[..], inodes[..], trees, owner)
    }

    method BlockRead(b: int) returns (buf: Block)
      ensures buf == Rd(disk[..], b)
    {
      if 0 <= b < disk.Length {
        buf := disk[b];
      } else {
        buf := Zeroes();
      }
    }

    method BlockWrite(b: int, buf: Block)
      requires 0 <= b < disk.Length
      modifies disk
      ensures M() == old(M()).(disk := old(disk[..])[b := buf])
    {
      disk[b] := buf;
    }

    /** get_block: first fit. The source needs a free block: its loop counter, a short, never reaches the bound. */
    method GetBlock() returns (b: int)
      requires Shape(M())
      requires CountFree(used[..]) > 0
      modifies used, `owner
      ensures Takes(old(M()), b, M())
      ensures forall c :: 0 <= c < b ==> old(owner)[c] != Nobody
    {
      SomeFree(used[..]);
      ghost var u := used[..];
      b := 0;
      while used[b]
        invariant 0 <= b < NUM_BLOCKS
        invariant exists c :: b <= c < NUM_BLOCKS && !used[c]
        invariant forall c :: 0 <= c < b ==> used[c]
        decreases NUM_BLOCKS - b
      {
        b := b + 1;
      }
      TakeOne(u, b);
      used[b] := true;
      owner := owner[b := Held];
      assert used[..] == u[b := true];
    }

    /** get_block_index: the tree as a plain map. An unused slot of an existing index block reads as negative. Without the
        index block a failed read gives zeroes: 0 results, or, if the double-indirect block is missing, an entry of block 0
        taken for an index block. Every number from 1110 on gives -1. */
    method GetBlockIndex(f: int, n: short) returns (b: int)
      requires 0 <= f < inodes.Length && |trees| == inodes.Length && 0 <= n
      requires Stored(disk[..], inodes[f].blocks, trees[f])
      ensures n < 1110 && Data(n) in trees[f] ==> b == trees[f][Data(n)]
      ensures n < 1110 && Data(n) !in trees[f] && (n < 10 || Parent(Data(n)) in trees[f]) ==> b < 0
      ensures 10 <= n < 110 && Single !in trees[f] ==> b == 0
      ensures 110 <= n < 1110 && Double in trees[f] && Sub((n - 110) / 100) !in trees[f] ==> b == 0
      ensures 110 <= n < 1110 && Double !in trees[f] ==> b == ShortAt(Rd(disk[..], 0), (n - 110) % 100)
      ensures n >= 1110 ==> b == -1
    {
      var bl := inodes[f].blocks;
      assert n < 1110 ==> SlotStored(disk[..], bl, trees[f], Data(n));
      if n < 10 {
        b := bl[n];
      } else if n < 110 {
        assert SlotStored(disk[..], bl, trees[f], Single);
        var buf := BlockRead(bl[10]);
        b := ShortAt(buf, n - 10);
      } else if n < 1110 {
        assert SlotStored(disk[..], bl, trees[f], Double);
        assert SlotStored(disk[..], bl, trees[f], Sub((n - 110) / 100));
        var buf := BlockRead(bl[11]);
        var sub := ShortAt(buf, (n - 110) / 100);
        buf := BlockRead(sub);
        b := ShortAt(buf, (n - 110) % 100);
      } else {
        b := -1;
      }
    }

    /** Note in the ghost view that slot s of inode f now holds block v. */
    ghost method Record(f: int, s: Slot, v: int)
      requires 0 <= f < |trees| && 0 <= v < |owner|
      modifies `trees, `owner
      ensures trees == old(trees)[f := old(trees)[f][s := v]]
      ensures owner == old(owner)[v := Owned(f, s)]
    {
      trees := trees[f := trees[f][s := v]];
      owner := owner[v := Owned(f, s)];
    }

    /** set_block_index, blocks 0 to 9 */
    method SetDirect(f: int, n: int, v: short)
      requires Structured(M()) && CanSet(M(), f, n, v) && n < 10
      modifies inodes, `trees, `owner
      ensures Structured(M()) && IsSet(old(M()), f, n, v, M())
    {
      DirectSet(M(), f, n, v);
      inodes[f] := inodes[f].(blocks := inodes[f].blocks[n := v]);
      Record(f, Data(n), v);
      assert M() == PutTop(old(M()), f, Data(n), v, old(disk[v]));
    }

    /** `inode->blocks[k] = get_block()` for k = 10 or 11; `taken` is the image between the call and the store. */
    method NewTop(f: int, s: Slot) returns (b: int, ghost taken: Image)
      requires Shape(M()) && 0 <= f < 128 && !s.Data? && !s.Sub? && CountFree(used[..]) > 0
      modifies used, inodes, `trees, `owner
      ensures Takes(old(M()), b, taken)
      ensures M() == PutTop(taken, f, s, b, taken.disk[b])
    {
      b := GetBlock();
      taken := M();
      inodes[f] := inodes[f].(blocks := inodes[f].blocks[if s == Single then 10 else 11 := b]);
      Record(f, s, b);
      assert M().disk == PutTop(taken, f, s, b, taken.disk[b]).disk;
    }

    /** `((short *)buf)[pos] = v; block_write(p, buf)`: buf is what index block p holds in image m, which the disk
        need not hold yet. */
    method StoreEntry(f: int, s: Slot, v: short, p: int, buf: Block, ghost m: Image)
      requires Buffered(M(), m, p, buf)
      requires 0 <= f < 128 && ValidSlot(s) && !Top(s) && 0 <= v < NUM_BLOCKS && p != v
      requires Parent(s) in m.trees[f] && m.trees[f][Parent(s)] == p
      modifies disk, `trees, `owner
      ensures M() == PutEntry(m, f, s, v, m.disk[v])
    {
      BlockWrite(p, PutShort(buf, Pos(s), v));
      Record(f, s, v);
      assert M().disk == PutEntry(m, f, s, v, m.disk[v]).disk;
    }

    /** The index block p that holds entry n exists. */
    method SetExisting(f: int, n: int, v: short, p: int)
      requires Structured(M()) && CanSet(M(), f, n, v) && 10 <= n && MissingIndex(trees[f], n) == 0
      requires trees[f][Parent(Data(n))] == p
      modifies disk, `trees, `owner
      ensures Structured(M()) && IsSet(old(M()), f, n, v, M())
    {
      assert owner[p] == Owned(f, Parent(Data(n)));
      hide AllStored, Exact, Untouched;
      EntrySet(M(), f, n, v);
      var buf := BlockRead(p);
      assert disk[..][p := buf] == disk[..];
      StoreEntry(f, Data(n), v, p, buf, M());
    }

    /** set_block_index, blocks 10 to 109 */
    method SetSingle(f: int, n: int, v: short)
      requires Structured(M()) && CanSet(M(), f, n, v) && 10 <= n < 110
      modifies disk, used, inodes, `trees, `owner
      ensures Structured(M()) && IsSet(old(M()), f, n, v, M())
    {
      ghost var m := M();
      assert SlotStored(disk[..], inodes[f].blocks, trees[f], Single);
      if inodes[f].blocks[10] < 0 {
        var b; ghost var taken;
        b, taken := NewTop(f, Single);
        var buf := BlockRead(b);
        buf := FillNegative(buf, 100);
        NewSingleSet(m, f, n, v, b, taken, buf);
        ghost var m2 := PutTop(taken, f, Single, b, buf);
        assert M().disk[b := buf] == m2.disk;
        StoreEntry(f, Data(n), v, b, buf, m2);
      } else {
        SetExisting(f, n, v, inodes[f].blocks[10]);
      }
    }

    /** A new index block c as entry j of the double-indirect block dbl; `fill` is its buffer, not yet written. */
    method NewSub(f: int, j: int, dbl: int, buf: Block) returns (c: int, fill: Block, ghost taken: Image, ghost mid: Image)
      requires Shape(M()) && 0 <= f < 128 && 0 <= j < 10 && CountFree(used[..]) > 0
      requires Double in trees[f] && trees[f][Double] == dbl && 0 <= dbl < NUM_BLOCKS && owner[dbl] != Nobody
      requires disk[dbl] == buf
      modifies disk, used, `trees, `owner
      ensures Takes(old(M()), c, taken) && c != dbl && AllNegative(fill, 100)
      ensures mid == PutEntry(taken, f, Sub(j), c, fill) && mid.trees[f][Sub(j)] == c
      ensures Buffered(M(), mid, c, fill)
    {
      c := GetBlock();
      taken := M();
      BlockWrite(dbl, PutShort(buf, j, c));
      fill := FillNegative(PutShort(buf, j, c), 100);
      Record(f, Sub(j), c);
      mid := PutEntry(taken, f, Sub(j), c, fill);
      assert disk[..][c := fill] == mid.disk;
    }

    /** The whole double-indirect path is missing. */
    method SetNewDouble(f: int, n: int, v: short)
      requires Structured(M()) && CanSet(M(), f, n, v) && 110 <= n
      requires Double !in trees[f] && Sub((n - 110) / 100) !in trees[f]
      modifies disk, used, inodes, `trees, `owner
      ensures Structured(M()) && IsSet(old(M()), f, n, v, M())
    {
      hide AllStored, Exact, Untouched;
      ghost var m := M();
      var b; ghost var taken;
      b, taken := NewTop(f, Double);
      var buf: Block := *;                       // an uninitialised local array
      buf := FillNegative(buf, 10);
      BlockWrite(b, buf);
      assert disk[..] == PutTop(taken, f, Double, b, buf).disk;
      var c, fill; ghost var taken2, mid;
      c, fill, taken2, mid := NewSub(f, (n - 110) / 100, b, buf);
      NewDoubleSet(m, f, n, v, b, taken, buf, c, taken2, fill);
      StoreEntry(f, Data(n), v, c, fill, mid);
    }

    /** The double-indirect block exists, the index block below it does not. */
    method SetNewSub(f: int, n: int, v: short, dbl: int, buf: Block)
      requires Structured(M()) && CanSet(M(), f, n, v) && 110 <= n
      requires Double in trees[f] && Sub((n - 110) / 100) !in trees[f]
      requires trees[f][Double] == dbl && disk[dbl] == buf
      modifies disk, used, inodes, `trees, `owner
      ensures Structured(M()) && IsSet(old(M()), f, n, v, M())
    {
      ghost var m := M();
      assert owner[dbl] == Owned(f, Double);
      hide AllStored, Exact, Untouched;
      var c, fill; ghost var taken, mid;
      c, fill, taken, mid := NewSub(f, (n - 110) / 100, dbl, buf);
      NewSubSet(m, f, n, v, c, taken, fill);
      StoreEntry(f, Data(n), v, c, fill, mid);
    }

    /** set_block_index, blocks 110 to 1109 */
    method SetDouble(f: int, n: int, v: short)
      requires Structured(M()) && CanSet(M(), f, n, v) && 110 <= n
      modifies disk, used, inodes, `trees, `owner
      ensures Structured(M()) && IsSet(old(M()), f, n, v, M())
    {
      var j := (n - 110) / 100;
      assert SlotStored(disk[..], inodes[f].blocks, trees[f], Double);
      assert SlotStored(disk[..], inodes[f].blocks, trees[f], Sub(j));
      if inodes[f].blocks[11] < 0 {
        SetNewDouble(f, n, v);
        return;
      }
      hide AllStored, Exact, Untouched;
      var dbl := inodes[f].blocks[11];
      var buf := BlockRead(dbl);
      if ShortAt(buf, j) < 0 {
        SetNewSub(f, n, v, dbl, buf);
      } else {
        SetExisting(f, n, v, ShortAt(buf, j));
      }
    }

    /** set_block_index: stores v as data block n, allocating one or two index blocks where the path lacks them. */
    method SetBlockIndex(f: int, n: int, v: short)
      requires Structured(M()) && CanSet(M(), f, n, v)
      modifies disk, used, inodes, `trees, `owner
      ensures Structured(M()) && IsSet(old(M()), f, n, v, M())
    {
      if n < 10 {
        SetDirect(f, n, v);
      } else if n < 110 {
        SetSingle(f, n, v);
      } else {
        SetDouble(f, n, v);
      }
    }

    /** One turn of the resize loop: take a block, store it as the next data block, count it. */
    method AddBlock(f: int)
      requires Core(M()) && 0 <= f < 128 && inodes[f].avail && !inodes[f].isDir && inodes[f].nblocks < 1110
      requires CountFree(used[..]) >= Cost(inodes[f].nblocks, inodes[f].nblocks + 1)
      modifies disk, used, inodes, `trees, `owner
      ensures Core(M()) && Grown(old(M()), f, old(inodes[f].nblocks) + 1, M())
    {
      hide AllStored, Exact, Untouched, Dense, Cost, MissingIndex, CountFree, Core;
      CoreShape(M());
      ghost var m := M();
      var i := inodes[f].nblocks;
      CoreParts(m, f);
      RoomForOne(trees[f], i, i + 1);
      var b := GetBlock();
      ghost var m1 := M();
      TakesKeepsTrees(m, b, m1);
      SetBlockIndex(f, i, b);
      ghost var m2 := M();
      inodes[f] := inodes[f].(nblocks := i + 1);
      GrowStep(m, f, b, m1, m2, M());
    }

    /** The resize loop of sfs_write (sfs.c:866-884). */
    method Grow(f: int, more: int)
      requires Core(M()) && 0 <= f < 128 && inodes[f].avail && !inodes[f].isDir
      requires 0 <= more && inodes[f].nblocks + more <= 1110
      requires CountFree(used[..]) >= Cost(inodes[f].nblocks, inodes[f].nblocks + more)
      modifies disk, used, inodes, `trees, `owner
      ensures Core(M()) && Grown(old(M()), f, old(inodes[f].nblocks) + more, M())
    {
      hide AllStored, Exact, Dense, CountFree, Core;
      CoreShape(M());
      ghost var m, n := M(), inodes[f].nblocks;
      var left := more;
      while left > 0
        invariant 0 <= left <= more
        invariant Core(M()) && Grown(m, f, n + more - left, M())
      {
        ghost var m0 := M();
        CostAdds(n, n + more - left, n + more);
        AddBlock(f);
        GrownTwice(m, f, n + more - left, m0, n + more - left + 1, M());
        left := left - 1;
      }
    }

    /** The read loop of sfs_read (sfs.c:813-822): n blocks of file f, from block number start on. */
    method ReadSpan(f: int, start: int, n: int) returns (aligned: seq<byte>)
      requires Core(M()) && 0 <= f < 128 && inodes[f].avail
      requires 0 <= start && 0 <= n && start + n <= inodes[f].nblocks
      ensures |aligned| == 512 * n
      ensures forall k :: 0 <= k < 512 * n ==> aligned[k] == ByteAt(disk[..], trees[f], 512 * start + k)
    {
      hide Core, Structured, Dense, Stored;
      CoreShape(M());
      aligned := [];
      for i := 0 to n
        invariant |aligned| == 512 * i
        invariant forall k :: 0 <= k < 512 * i ==> aligned[k] == ByteAt(disk[..], trees[f], 512 * start + k)
      {
        CoreShape(M());
        CoreParts(M(), f);
        DataBlock(M(), f, start + i);
        var b := GetBlockIndex(f, start + i);
        var buf := BlockRead(b);
        BlockBytes(disk[..], trees[f], start + i);
        assert forall k :: 512 * i <= k < 512 * i + 512 ==>
            (aligned + buf)[k] == ByteAt(disk[..], trees[f], 512 * (start + i) + (k - 512 * i));
        aligned := aligned + buf;
      }
    }

    /** The write-back loop of sfs_write (sfs.c:903-907): the blocks of cont become n data blocks of f. */
    method WriteSpan(f: int, start: int, n: int, cont: seq<byte>)
      requires Core(M()) && 0 <= f < 128 && inodes[f].avail
      requires 0 <= start && 0 <= n && start + n <= inodes[f].nblocks && |cont| == 512 * n
      modifies disk
      ensures Core(M()) && Spanned(old(M()), f, start, cont, n, M())
    {
      hide Exact, Dense, Stored, Core, Spanned;
      ghost var m := M();
      CoreShape(m);
      SpanNone(m, f, start, cont);
      for i := 0 to n
        invariant Core(M()) && Spanned(m, f, start, cont, i, M())
        invariant M() == m.(disk := M().disk)
      {
        CoreShape(M());
        CoreParts(M(), f);
        DataBlock(M(), f, start + i);
        var b := GetBlockIndex(f, start + i);
        SpanStep(m, f, start, cont, i, M(), b);
        DataWrite(M(), b, cont[512 * i..512 * i + 512]);
        BlockWrite(b, cont[512 * i..512 * i + 512]);
      }
    }

    /** sfs_read on file f (sfs.c:793-825): EOF at or beyond the end of the file, else exactly the requested
        bytes, cut at the end. */
    method Read(f: int, size: int, offset: int) returns (ret: int, data: seq<byte>)
      requires Valid(M()) && 0 <= f < 128 && inodes[f].avail && !inodes[f].isDir
      requires 0 <= offset < 0x8000_0000_0000_0000 && 0 <= size && offset + size < 0x1_0000_0000_0000_0000
      ensures offset >= inodes[f].size ==> ret == -1 && data == []
      ensures offset < inodes[f].size ==> ret == |data| && data == Window(Contents(M(), f), offset, size)
    {
      hide Core, Structured, Dense, Stored, Wrap64, SpanExpr, ByteAt;
      CoreShape(M());
      CoreParts(M(), f);
      if offset >= inodes[f].size {
        return -1, [];
      }
      var count := size;
      if Wrap64(offset + count) > inodes[f].size {
        count := inodes[f].size - offset;
      }
      WrapSmall(offset + size);
      var start, blockOffset := offset / 512, offset % 512;
      SpanIsCeil(offset, count);
      SpanEnd(offset, count);
      BlocksMonotone(offset + count, inodes[f].size);
      var aligned := ReadSpan(f, start, SpanExpr(offset, count));
      data := aligned[blockOffset..blockOffset + count];
      ret := count;
      ghost var w := Window(Contents(M(), f), offset, size);
      assert |w| == count && 512 * start + blockOffset == offset;
      forall k | 0 <= k < count
        ensures data[k] == w[k]
      {
        assert data[k] == aligned[blockOffset + k] == ByteAt(disk[..], trees[f], 512 * start + (blockOffset + k));
      }
    }

    /** The second half of sfs_write (sfs.c:888-907): read the first block, lay the data over it, write back. */
    method WriteBack(f: int, data: seq<byte>, offset: int) returns (ghost old1: Block)
      requires Core(M()) && 0 <= f < 128 && inodes[f].avail
      requires 0 <= offset && |data| > 0 && offset + |data| <= 1110 * 512
      requires BlocksFor(offset + |data|) <= inodes[f].nblocks
      modifies disk
      ensures Core(M()) && M() == old(M()).(disk := disk[..]) && WroteBack(old(M()), f, offset, data, old1, M())
    {
      hide Core, Structured, Dense, Stored, Wrap64, SpanExpr, ByteAt;
      CoreShape(M());
      CoreParts(M(), f);
      SpanIsCeil(offset, |data|);
      SpanEnd(offset, |data|);
      var start, writeBlocks := offset / 512, SpanExpr(offset, |data|);
      DataBlock(M(), f, start);
      var b := GetBlockIndex(f, start);
      var first := BlockRead(b);
      BlockBytes(disk[..], trees[f], start);
      WriteSpan(f, start, writeBlocks, Overlay(first, writeBlocks, offset % 512, data));
      old1 := first;
    }

    /** sfs_write on file f (sfs.c:851-914), at any offset; beyond the end it writes nothing. */
    method Write(f: int, data: seq<byte>, offset: int) returns (ret: int)
      requires Core(M()) && 0 <= f < 128 && inodes[f].avail && !inodes[f].isDir && Sized(inodes[f])
      requires 0 <= offset
      requires offset <= inodes[f].size ==> |data| > 0 && offset + |data| <= 1110 * 512
      requires offset <= inodes[f].size ==>
        CountFree(used[..]) >= Cost(inodes[f].nblocks, Max(inodes[f].nblocks, BlocksFor(offset + |data|)))
      modifies disk, used, inodes, `trees, `owner
      ensures old(inodes[f].size) < offset ==> ret == 0 && M() == old(M())
      ensures old(inodes[f].size) >= offset ==> ret == |data| && Core(M()) && Written(old(M()), f, offset, data, M())
    {
      hide Core, Structured, Dense, Stored, Wrap64, GrowthExpr, MustGrow, Written, WroteBack, CountFree;
      ghost var m := M();
      CoreShape(m);
      CoreParts(m, f);
      var size := inodes[f].size;
      if offset > size {
        return 0;
      }
      MustGrowIffMoreBlocks(offset, |data|, size);
      GrowthIsDifference(offset, |data|, size);
      if MustGrow(offset, |data|, size) {
        Grow(f, GrowthExpr(offset, |data|, size));
      } else {
        GrownNone(m, f);
      }
      ghost var g := M();
      ghost var first := WriteBack(f, data, offset);
      ghost var h := M();
      CoreShape(h);
      inodes[f] := inodes[f].(size := size + |data|);
      WriteDone(m, f, offset, data, g, first, h, M());
      ret := |data|;
    }

    /** get_inode: the first free inode, with nothing mapped; -1 if there is none. */
    method GetInode() returns (i: int)
      modifies inodes
      ensures -1 <= i < inodes.Length
      ensures forall j :: 0 <= j < (if i < 0 then inodes.Length else i) ==> old(inodes[j].avail)
      ensures i < 0 ==> inodes[..] == old(inodes[..])
      ensures i >= 0 ==> !old(inodes[i].avail)
      ensures i >= 0 ==> inodes[..] == old(inodes[..])[i := old(inodes[i]).(avail := true, blocks := inodes[i].blocks)]
      ensures i >= 0 ==> forall j :: 0 <= j < 12 ==> inodes[i].blocks[j] == -1
    {
      i := 0;
      while i < inodes.Length
        invariant 0 <= i <= inodes.Length
        invariant forall j :: 0 <= j < i ==> inodes[j].avail
        invariant inodes[..] == old(inodes[..])
      {
        if !inodes[i].avail {
          inodes[i] := inodes[i].(avail := true);
          for j := 0 to 12
            invariant inodes[..] == old(inodes[..])[i := old(inodes[i]).(avail := true, blocks := inodes[i].blocks)]
            invariant forall k :: 0 <= k < j ==> inodes[i].blocks[k] == -1
          {
            inodes[i] := inodes[i].(blocks := inodes[i].blocks[j := -1]);
          }
          return;
        }
        i := i + 1;
      }
      i := -1;
    }

    // ------------------------------------------------------------------ free_inode

    /** The state inside free_inode: only disk_blocks changed since image m, by the release of the slots `done`. */
    ghost predicate Freeing(m: Image, f: int, done: set<Slot>)
      reads this, disk, used, inodes
    {
      && Core(m) && 0 < f < 128 && m.inodes[f].avail
      && inodes.Length == 128 && used.Length == NUM_BLOCKS
      && M() == m.(used := used[..], inodes := m.inodes[f := inodes[f]])
      && inodes[f].blocks == m.inodes[f].blocks
      && Released(m, f, done, used[..])
    }

    /** The loops at sfs.c:107-111 and 121-125: free the entries of an index buffer up to the first unused one. */
    method ReleaseRun(f: int, buf: Block, base: int, ghost m: Image, ghost done: set<Slot>) returns (ghost now: set<Slot>)
      requires Freeing(m, f, done)
      requires 0 <= base <= 1010 && IsRun(buf, m.trees[f], base)
      modifies used
      ensures now == done + Run(m.trees[f], base, base + 100)
      ensures Freeing(m, f, now)
    {
      hide Structured, Dense, Stored, Exact, Released, Core;
      CoreShape(m);
      CoreParts(m, f);
      ghost var t := m.trees[f];
      PositiveBlocks(m, f);
      var j := 0;
      now := done;
      while j < 100
        invariant 0 <= j <= 100
        invariant now == done + Run(t, base, base + j)
        invariant Freeing(m, f, now)
      {
        if ShortAt(buf, j) <= 0 {
          DenseStops(t, m.inodes[f].nblocks, base, base + j);
          break;
        }
        ReleaseOne(m, f, now, used[..], Data(base + j));
        used[ShortAt(buf, j)] := false;
        now := now + {Data(base + j)};
        assert Run(t, base, base + j + 1) == Run(t, base, base + j) + {Data(base + j)};
        j := j + 1;
      }
    }

    /** sfs.c:102-117: the double-indirect part of the tree. */
    method ReleaseDouble(f: int, ghost m: Image, ghost done: set<Slot>) returns (ghost now: set<Slot>)
      requires Freeing(m, f, done)
      modifies used
      ensures Freeing(m, f, now)
      ensures now == done + Part(m.trees[f], InDouble)
    {
      hide Structured, Dense, Stored, Exact, Released, Core, IsRun;
      CoreShape(m);
      CoreParts(m, f);
      ghost var t := m.trees[f];
      PositiveBlocks(m, f);
      DoubleUsed(m.disk, m.inodes[f].blocks, t, m.inodes[f].nblocks);
      now := done;
      if inodes[f].blocks[11] > 0 {
        var buf1 := BlockRead(inodes[f].blocks[11]);
        DoubleRun(m.disk, m.inodes[f].blocks, t);
        var i := 0;
        while i < 10
          invariant 0 <= i <= 10
          invariant Freeing(m, f, now)
          invariant forall s :: s in now <==> s in done || (s in t && BelowSub(s, i))
        {
          if ShortAt(buf1, i) <= 0 {
            DenseEnds(t, m.inodes[f].nblocks, i);
            break;
          }
          var buf2 := BlockRead(ShortAt(buf1, i));
          SubRun(m.disk, m.inodes[f].blocks, t, i);
          now := ReleaseRun(f, buf2, 110 + 100 * i, m, now);
          ReleaseOne(m, f, now, used[..], Sub(i));
          used[ShortAt(buf1, i)] := false;
          now := now + {Sub(i)};
          i := i + 1;
        }
        ReleaseOne(m, f, now, used[..], Double);
        used[inodes[f].blocks[11]] := false;
        now := now + {Double};
      }
    }

    /** sfs.c:119-127: the single-indirect part of the tree. */
    method ReleaseSingle(f: int, ghost m: Image, ghost done: set<Slot>) returns (ghost now: set<Slot>)
      requires Freeing(m, f, done)
      modifies used
      ensures Freeing(m, f, now)
      ensures now == done + Part(m.trees[f], InSingle)
    {
      hide Structured, Dense, Stored, Exact, Released, Core, IsRun;
      CoreShape(m);
      CoreParts(m, f);
      ghost var t := m.trees[f];
      PositiveBlocks(m, f);
      SingleUsed(m.disk, m.inodes[f].blocks, t, m.inodes[f].nblocks);
      now := done;
      if inodes[f].blocks[10] > 0 {
        var buf1 := BlockRead(inodes[f].blocks[10]);
        SingleRun(m.disk, m.inodes[f].blocks, t);
        now := ReleaseRun(f, buf1, 10, m, now);
        ReleaseOne(m, f, now, used[..], Single);
        used[inodes[f].blocks[10]] := false;
        now := now + {Single};
      }
    }

    /** sfs.c:129-134: the direct blocks. The test there compares the array itself and always succeeds; for an unused
        entry, -1, the source then stores outside disk_blocks, which is not modelled. */
    method ReleaseDirect(f: int, ghost m: Image, ghost done: set<Slot>) returns (ghost now: set<Slot>)
      requires Freeing(m, f, done)
      modifies used, inodes
      ensures M() == m.(used := used[..], inodes := m.inodes[f := inodes[f]])
      ensures Released(m, f, now, used[..])
      ensures inodes[f] == old(inodes[f]).(blocks := inodes[f].blocks)
      ensures now == done + Part(m.trees[f], Direct)
    {
      hide Structured, Dense, Stored, Exact, Released, Core;
      CoreShape(m);
      CoreParts(m, f);
      SlotKinds(m.disk, m.inodes[f].blocks, m.trees[f]);
      now := done;
      for i := 0 to 10
        invariant M() == m.(used := used[..], inodes := m.inodes[f := inodes[f]])
        invariant inodes[f] == old(inodes[f]).(blocks := inodes[f].blocks)
        invariant forall k :: i <= k < 10 ==> inodes[f].blocks[k] == m.inodes[f].blocks[k]
        invariant Released(m, f, now, used[..])
        invariant forall s :: s in now <==> s in done || (s in m.trees[f] && s.Data? && 0 <= s.i < i)
      {
        DirectUsed(m.disk, m.inodes[f].blocks, m.trees[f], i);
        var b := inodes[f].blocks[i];
        if b >= 0 {
          ReleaseOne(m, f, now, used[..], Data(i));
          used[b] := false;
          now := now + {Data(i)};
        }
        inodes[f] := inodes[f].(blocks := inodes[f].blocks[i := -1]);
      }
    }

    /** free_inode: drops a link; with the last one, exactly the blocks of f become FREE. */
    method FreeInode(f: int)
      requires Core(M()) && 0 < f < 128 && inodes[f].avail
      modifies used, inodes, `trees, `owner
      ensures old(inodes[f].nlink) > 1 ==>
                M() == old(M()).(inodes := old(inodes[..])[f := old(inodes[f]).(nlink := old(inodes[f].nlink) - 1)])
      ensures old(inodes[f].nlink) <= 1 ==> Core(M()) && Unlinked(old(M()), f, M())
    {
      hide Structured, Dense, Stored, Exact, Released, Core;
      ghost var m := M();
      CoreShape(m);
      CoreParts(m, f);
      inodes[f] := inodes[f].(nlink := inodes[f].nlink - 1);
      if inodes[f].nlink > 0 {
        return;
      }
      inodes[f] := inodes[f].(isDir := false, nlink := 0, size := 0, nblocks := 0);
      ReleasedNone(m, f);
      ghost var done := ReleaseDouble(f, m, {});
      done := ReleaseSingle(f, m, done);
      done := ReleaseDirect(f, m, done);
      inodes[f] := inodes[f].(avail := false);
      trees := trees[f := map[]];
      owner := Disowned(owner, f);
      SlotKinds(m.disk, m.inodes[f].blocks, m.trees[f]);
      AllReleased(m, f, done, used[..]);
      UnlinkedCore(m, f, M());
    }
  }
}
