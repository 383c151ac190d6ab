/** Unmounting a file system and mounting it again (asst3/assignment3/src/sfs.c:339-394, 460-489). */
module MountFs {
  import opened Blocks
  import opened IndexTree
  import opened StoreImage
  import opened FileImage
  import opened FsImage
  import opened FreeCount
  import opened DirText
  import opened Paths
  import opened FileSystem
  import opened TableBytes
  import Mount

  /** No file has a block in the reserved area, which the allocator does not know about. */
  ghost predicate OwnedBelow(m: Image, system: int) {
    forall b :: system <= b < |m.owner| && 0 <= b ==> m.owner[b] == Nobody
  }

  /** Two disks agree on every block some inode owns. */
  ghost predicate SameOwned(m: Image, d: seq<Block>) {
    |d| == |m.disk| == |m.owner| && forall b :: 0 <= b < |d| && m.owner[b] != Nobody ==> d[b] == m.disk[b]
  }

  lemma StoredAgain(m: Image, f: int, d: seq<Block>)
    requires Core(m) && SameOwned(m, d) && 0 <= f < 128 && m.inodes[f].avail
    ensures Stored(d, m.inodes[f].blocks, m.trees[f])
  {
    hide Stored, Dense;
    CoreShape(m);
    assert Stored(m.disk, m.inodes[f].blocks, m.trees[f]);
    StoredFrame(m.disk, m.inodes[f].blocks, m.trees[f], d);
  }

  lemma CoreAgain(m: Image, d: seq<Block>)
    requires Core(m) && SameOwned(m, d)
    ensures Core(m.(disk := d))
  {
    hide Stored, Dense, SameOwned, Exact;
    CoreShape(m);
    forall f | 0 <= f < 128 && m.inodes[f].avail
      ensures Stored(d, m.inodes[f].blocks, m.trees[f])
    {
      StoredAgain(m, f, d);
    }
    assert |d| == |m.disk| by { SameLength(m, d); }
  }

  lemma SameLength(m: Image, d: seq<Block>)
    requires SameOwned(m, d)
    ensures |d| == |m.disk|
  {
  }

  lemma ContentsAgain(m: Image, f: int, d: seq<Block>)
    requires Valid(m) && SameOwned(m, d) && 0 <= f < 128 && Shape(m) && m.inodes[f].avail
    ensures Contents(m.(disk := d), f) == Contents(m, f)
  {
    hide Valid, Contents;
    ContentsFrame(m, f, m.(disk := d));
  }

  /** A file system is what it was on any disk with the same owned blocks. */
  lemma FsAgain(x: Tables, v: View, d: seq<Block>)
    requires FsValid(x, v) && SameOwned(x.m, d)
    ensures FsValid(x.(m := x.m.(disk := d)), v)
  {
    hide Core, SameOwned, Contents, Lockstep, Backed, Listed;
    CoreAgain(x.m, d);
    CoreShape(x.m);
    forall f | 0 <= f < 128 && x.m.inodes[f].avail
      ensures Contents(x.m.(disk := d), f) == Contents(x.m, f)
    {
      ContentsAgain(x.m, f, d);
    }
    WiredAgain(x, d);
  }

  lemma WiredAgain(x: Tables, d: seq<Block>)
    requires Shaped(x) && Wired(x)
    ensures Wired(x.(m := x.m.(disk := d)))
  {
    forall i | 0 < i < 128 && x.names[i].avail
      ensures Listed(x.(m := x.m.(disk := d)), i)
    {
      assert Listed(x, i);
    }
  }

  lemma FsShape(x: Tables, v: View)
    requires FsValid(x, v)
    ensures Shape(x.m) && Shaped(x) && Core(x.m)
  {
    hide Stored, Dense;
  }

  // ---------------------------------------------------------------- the tables of a file system in memory

  function MemoryOf(x: Tables, open: seq<FileEntry>): Memory {
    Memory(x.m.inodes, x.names, x.m.used, open)
  }

  /** The modelled tables, as one memory with the rest of the stat fields. */
  predicate InMemory(x: Tables, open: seq<FileEntry>, extra: seq<Extra>) {
    && |extra| == |x.m.inodes| == 128
    && (forall i :: 0 <= i < 128 ==>
          && extra[i].mode < 0x1_0000_0000 && extra[i].uid < 0x1_0000_0000 && extra[i].gid < 0x1_0000_0000
          && Fits64(extra[i].atime) && Fits64(extra[i].mtime) && Fits64(extra[i].ctime)
          && (S_ISDIR(extra[i].mode) <==> x.m.inodes[i].isDir))
  }

  lemma {:induction false} SlashedLong(ws: seq<Text>)
    ensures |Slashed(ws)| >= |ws|
  {
    if ws != [] {
      SlashedLong(ws[1..]);
    }
  }

  /** A directory in one block has fewer than 512 entries. */
  lemma FewEntries(x: Tables, v: View, d: int)
    requires FsValid(x, v) && 0 <= d < 128 && Shaped(x) && x.m.inodes[d].avail && x.m.inodes[d].isDir
    ensures |x.entries[d]| < 512
  {
    hide Core, Wired, Abstracts, Lockstep, Tallied, ByteAt, Slashed, Decimal, EntryWords;
    assert DirStored(x.m, d, x.up[d], x.entries[d]);
    SlashedLong(DirWords(d, x.up[d], x.entries[d]));
  }

  lemma InodePlain(x: Tables, v: View, i: int)
    requires FsValid(x, v) && Shaped(x) && 0 <= i < 128
    ensures PlainInode(x.m.inodes[i])
  {
    hide Core, Wired, Abstracts, Lockstep, DirsStored;
    assert Tally(x.m.inodes[i], |x.entries[i]|);
    if x.m.inodes[i].avail {
      CoreParts(x.m, i);
      if x.m.inodes[i].isDir {
        FewEntries(x, v, i);
      }
    }
  }

  lemma PathPlain(x: Tables, v: View, i: int)
    requires FsValid(x, v) && Shaped(x) && 0 <= i < 128
    ensures MappingFits(x.names[i]) && PERCENT !in x.names[i].path
  {
    hide Core, Abstracts, DirsStored, DirOf, LeafOf;
    if x.names[i].avail && i > 0 {
      assert Listed(x, i);
    }
  }

  lemma HandlesFit(open: seq<FileEntry>, inodes: seq<Inode>)
    requires HandlesLive(open, inodes) && |inodes| == 128
    ensures |open| == 128 && forall h :: 0 <= h < 128 ==> EntryFits(open[h]) && open[h].pos == 0
  {
  }

  /** The tables of a valid file system fit their fields, and nothing in them can read as KEY. */
  lemma FsFits(x: Tables, v: View, open: seq<FileEntry>, extra: seq<Extra>)
    requires FsValid(x, v) && Shaped(x) && HandlesLive(open, x.m.inodes) && InMemory(x, open, extra)
    ensures Fits(MemoryOf(x, open), extra) && Plain(MemoryOf(x, open))
  {
    hide FsValid, HandlesLive, MappingFits, EntryFits, S_ISDIR;
    FsShape(x, v);
    HandlesFit(open, x.m.inodes);
    forall i | 0 <= i < 128
      ensures PlainInode(x.m.inodes[i]) && MappingFits(x.names[i]) && PERCENT !in x.names[i].path
    {
      InodePlain(x, v, i);
      PathPlain(x, v, i);
    }
  }

  // ---------------------------------------------------------------- unmount, then mount

  /** When a file system with these tables is unmounted, the next mount finds the saved block: KEY is unique, unless a block
      after the image holds it. */
  lemma FsKeyUnique(x: Tables, v: View, open: seq<FileEntry>, extra: seq<Extra>, ri: Mount.int32, rb: Mount.int32, system: nat)
    requires FsValid(x, v) && Shaped(x) && HandlesLive(open, x.m.inodes) && InMemory(x, open, extra) && system <= Mount.SYSTEM
    requires |x.m.disk| == NUM_BLOCKS
    requires forall b :: system + Mount.RESERVE_BLOCKS <= b < NUM_BLOCKS ==> !Mount.Keyed(x.m.disk[b])
    ensures Fits(MemoryOf(x, open), extra)
    ensures Mount.KeyUnique(x.m.disk, system, Encode(MemoryOf(x, open), extra, ri, rb))
  {
    hide FsValid, HandlesLive, InMemory, Fits, Plain, Mount.PieceKeyed, Mount.Keyed, Encode;
    FsFits(x, v, open, extra);
    forall i | 1 <= i < Mount.RESERVE_BLOCKS
      ensures !Mount.PieceKeyed(Encode(MemoryOf(x, open), extra, ri, rb), i)
    {
      NeverKeyed(Encode(MemoryOf(x, open), extra, ri, rb), MemoryOf(x, open), extra, ri, rb, i);
    }
  }

  /** The file system that mounted tables t stand for, on disk d: what the model keeps besides is not in memory. */
  ghost function Mounted(x: Tables, t: Memory, d: seq<Block>): Tables {
    x.(m := x.m.(disk := d, used := t.used, inodes := t.inodes), names := t.names)
  }

  /** Unmount and mount: the scan finds the saved block, the tables in memory are again those of the file system, and on the
      disk as it is now they stand for the same files and directories, if no file reaches into the reserved area. */
  lemma RemountRestores(x: Tables, v: View, open: seq<FileEntry>, extra: seq<Extra>, ri: Mount.int32, rb: Mount.int32,
                        system: nat, s: Mount.Saved, d: seq<Block>)
    requires FsValid(x, v) && Shaped(x) && HandlesLive(open, x.m.inodes) && InMemory(x, open, extra)
    requires 0 < system <= Mount.SYSTEM && OwnedBelow(x.m, system) && |x.m.disk| == NUM_BLOCKS
    requires forall b :: system + Mount.RESERVE_BLOCKS <= b < NUM_BLOCKS ==> !Mount.Keyed(x.m.disk[b])
    requires Fits(MemoryOf(x, open), extra) && s == Encode(MemoryOf(x, open), extra, ri, rb)
    requires Mount.Unmounted(x.m.disk, system, s, d)
    ensures Mount.LastKey(d, NUM_BLOCKS) == system
    ensures var loaded := Mount.Loaded(Mount.Run(d, system, Mount.RESERVE));
            && loaded == s && Decode(loaded) == MemoryOf(x, open) && loaded.rootInode == ri && loaded.rootBlock == rb
            && Mounted(x, Decode(loaded), d) == x.(m := x.m.(disk := d)) && FsValid(Mounted(x, Decode(loaded), d), v)
  {
    hide FsValid, HandlesLive, InMemory, Fits, Decode, Mount.KeyUnique, Mount.Keyed, Mount.Run, Mount.Loaded, Mount.LastKey;
    FsShape(x, v);
    FsKeyUnique(x, v, open, extra, ri, rb, system);
    Mount.RemountIff(x.m.disk, system, s, d);
    TablesRoundTrip(MemoryOf(x, open), extra, ri, rb);
    UnmountKeepsFs(x, v, system, s, d);
  }

  lemma UnmountKeepsFs(x: Tables, v: View, system: nat, s: Mount.Saved, d: seq<Block>)
    requires FsValid(x, v) && 0 < system <= Mount.SYSTEM && OwnedBelow(x.m, system)
    requires Mount.Unmounted(x.m.disk, system, s, d)
    ensures FsValid(x.(m := x.m.(disk := d)), v)
  {
    hide FsValid;
    assert |x.m.disk| == |x.m.owner| == NUM_BLOCKS by { FsShape(x, v); }
    FsAgain(x, v, d);
  }

  /** sfs_destroy, then sfs_init, on a volume that holds the file system: afterwards the volume's tables are those of the
      same file system on the disk as it is. */
  method UnmountAndMount(vol: Mount.Volume, buf: array<byte>, buf2: array<byte>, ghost x: Tables, ghost v: View,
                         ghost open: seq<FileEntry>, ghost extra: seq<Extra>) returns (newMount: bool)
    requires vol.disk.Length == NUM_BLOCKS && buf.Length == buf2.Length == Mount.RESERVE_BLOCKS * 512
    requires FsValid(x, v) && Shaped(x) && HandlesLive(open, x.m.inodes) && InMemory(x, open, extra)
    requires vol.system == Mount.SYSTEM && OwnedBelow(x.m, Mount.SYSTEM) && x.m.disk == vol.disk[..]
    requires Fits(MemoryOf(x, open), extra)
    requires vol.tables == Encode(MemoryOf(x, open), extra, vol.tables.rootInode, vol.tables.rootBlock)
    modifies vol, vol.disk, buf, buf2
    ensures !newMount && vol.tables == old(vol.tables) && vol.system == Mount.SYSTEM
    ensures Mount.Sized(vol.tables) && Decode(vol.tables) == MemoryOf(x, open)
    ensures FsValid(Mounted(x, Decode(vol.tables), vol.disk[..]), v)
  {
    hide FsValid, HandlesLive, InMemory, Fits, Decode, Encode, Mount.KeyUnique, Mount.Keyed, Mount.Run, Mount.Loaded, Mount.LastKey,
         Mount.Unmounted, OwnedBelow;
    ghost var s := vol.tables;
    vol.Destroy(buf);
    RemountRestores(x, v, open, extra, s.rootInode, s.rootBlock, Mount.SYSTEM, s, vol.disk[..]);
    newMount := vol.Init(buf2);
  }

  // ---------------------------------------------------------------- the reserved area

  /** Get_block goes into the reserved area if and only if every block below it is used. */
  lemma ReservedTakenIff(m: Image, b: int, m': Image, system: nat)
    requires Shape(m) && Takes(m, b, m') && (forall c :: 0 <= c < b ==> m.owner[c] != Nobody) && system <= NUM_BLOCKS
    ensures b >= system <==> forall c :: 0 <= c < system ==> m.used[c]
  {
  }

  /** So as long as more blocks are free than are reserved, get_block stays out of the reserved area. */
  lemma ReservedSpared(m: Image, b: int, m': Image, system: nat)
    requires Shape(m) && Takes(m, b, m') && (forall c :: 0 <= c < b ==> m.owner[c] != Nobody) && system <= NUM_BLOCKS
    requires OwnedBelow(m, system) && CountFree(m.used) > NUM_BLOCKS - system
    ensures b < system && OwnedBelow(m', system)
  {
    hide CountFree;
    ReservedTakenIff(m, b, m', system);
    if forall c :: 0 <= c < system ==> m.used[c] {
      FreeAbove(m.used, system);
    }
  }

  lemma {:induction false} FreeAbove(u: seq<bool>, system: nat)
    requires system <= |u| && forall c :: 0 <= c < system ==> u[c]
    ensures CountFree(u) <= |u| - system
  {
    if |u| > system {
      FreeAbove(u[..|u| - 1], system);
    } else if u != [] {
      AllUsed(u);
    }
  }

  lemma {:induction false} AllUsed(u: seq<bool>)
    requires forall c :: 0 <= c < |u| ==> u[c]
    ensures CountFree(u) == 0
  {
    if u != [] {
      AllUsed(u[..|u| - 1]);
    }
  }

  /** A file survives unmounting if none of its blocks lies in the reserved area, whatever other files have there: its tree
      is stored as it was, and it has the same contents. */
  lemma FileSurvives(m: Image, f: int, system: nat, s: Mount.Saved, d: seq<Block>)
    requires Valid(m) && Shape(m) && 0 <= f < 128 && m.inodes[f].avail && system <= Mount.SYSTEM
    requires forall b :: system <= b < NUM_BLOCKS ==> !(m.owner[b].Owned? && m.owner[b].f == f)
    requires Mount.Unmounted(m.disk, system, s, d)
    ensures Stored(d, m.inodes[f].blocks, m.trees[f]) && Contents(m.(disk := d), f) == Contents(m, f)
  {
    hide Stored, Dense, Contents, Mount.Layout, Mount.Run;
    CoreParts(m, f);
    BlocksAre(m, f);
    StoredFrame(m.disk, m.inodes[f].blocks, m.trees[f], d);
    ContentsFrame(m, f, m.(disk := d));
  }

  lemma BlocksAre(m: Image, f: int)
    requires Core(m) && 0 <= f < 128 && m.inodes[f].avail
    ensures |m.owner| == NUM_BLOCKS && |m.trees| == 128
    ensures forall s :: s in m.trees[f] ==> 0 <= m.trees[f][s] < NUM_BLOCKS && m.owner[m.trees[f][s]] == Owned(f, s)
  {
    hide Stored, Dense;
  }
}
