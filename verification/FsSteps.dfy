/** The steps of sfs_create, sfs_mkdir and sfs_unlink on the block store
    (asst3/assignment3/src/sfs.c:74-86, 559-635, 669-690, 929-1007). */
module FsSteps {
  import opened Blocks
  import opened FreeCount
  import opened IndexTree
  import opened StoreImage
  import opened FileImage
  import opened FreeImage
  import opened DirText
  import opened FsImage
  import opened Paths

  const UNMAPPED: BlockList := [-1, -1, -1, -1, -1, -1, -1, -1, -1, -1, -1, -1]

  const NEW_FILE: Inode := Inode(true, false, 1, 0, 0, UNMAPPED)

  /** The inode of a new file: nothing mapped, nothing in it. */
  lemma NewFile(m: Image, i: int)
    requires Valid(m) && 0 < i < 128 && !m.inodes[i].avail
    ensures var m' := m.(inodes := m.inodes[i := NEW_FILE]);
            Valid(m') && OthersSame(m, i, m') && Contents(m', i) == []
  {
    hide Stored, Exact, ByteAt, CountFree, Dense;
    var m' := m.(inodes := m.inodes[i := NEW_FILE]);
    NothingStored(m.disk);
    assert Structured(m');
    forall g | 0 <= g < 128 && g != i && m.inodes[g].avail
      ensures Contents(m', g) == Contents(m, g)
    {
    }
  }

  lemma NothingStored(d: seq<Block>)
    ensures Stored(d, UNMAPPED, map[])
    ensures Dense(map[], 0)
  {
  }

  lemma FirstBlock(d: seq<Block>, t: Tree)
    requires Data(0) in t
    ensures forall k :: 0 <= k < 512 ==> ByteAt(d, t, k) == Rd(d, t[Data(0)])[k]
  {
    forall k | 0 <= k < 512
      ensures ByteAt(d, t, k) == Rd(d, t[Data(0)])[k]
    {
      assert k / 512 == 0 && k % 512 == k;
    }
  }

  /** Rewriting the one block of directory d changes the contents of d only. */
  lemma DirWrite(m: Image, d: int, buf: Block)
    requires Valid(m) && 0 <= d < 128 && m.inodes[d].avail && m.inodes[d].isDir
    ensures Data(0) in m.trees[d] && 0 <= m.trees[d][Data(0)] < NUM_BLOCKS
    ensures var m' := m.(disk := m.disk[m.trees[d][Data(0)] := buf]);
            Valid(m') && OthersSame(m, d, m') && Contents(m', d) == buf
  {
    hide Structured, Dense, ByteAt, CountFree;
    CoreShape(m);
    DataBlock(m, d, 0);
    var b := m.trees[d][Data(0)];
    var m' := m.(disk := m.disk[b := buf]);
    DataWrite(m, b, buf);
    FirstBlock(m'.disk, m.trees[d]);
    assert Contents(m', d) == buf;
    forall g | 0 <= g < 128 && g != d && m.inodes[g].avail
      ensures Contents(m', g) == Contents(m, g)
    {
      ContentsFrame(m, g, m');
    }
  }

  /** The contents of a directory are its block. */
  lemma DirBlock(m: Image, d: int)
    requires Valid(m) && 0 <= d < 128 && m.inodes[d].avail && m.inodes[d].isDir
    ensures Data(0) in m.trees[d] && 0 <= m.trees[d][Data(0)] < NUM_BLOCKS
    ensures Contents(m, d) == m.disk[m.trees[d][Data(0)]]
  {
    hide Structured, Dense, ByteAt, CountFree;
    CoreShape(m);
    DataBlock(m, d, 0);
    FirstBlock(m.disk, m.trees[d]);
  }

  /** Changing the link count and the size of a directory changes nothing else. */
  lemma Restat(m: Image, d: int, n: int, z: int)
    requires Valid(m) && 0 <= d < 128 && m.inodes[d].isDir
    ensures var m' := m.(inodes := m.inodes[d := m.inodes[d].(nlink := n, size := z)]);
            Valid(m') && OthersSame(m, d, m') && Contents(m', d) == Contents(m, d)
  {
    hide Stored, Exact, Dense, ByteAt, CountFree;
    var m' := m.(inodes := m.inodes[d := m.inodes[d].(nlink := n, size := z)]);
    assert Structured(m');
  }

  /** Freeing file f keeps all other contents. */
  lemma FreedOthers(m: Image, f: int, m': Image)
    requires Valid(m) && 0 < f < 128 && m.inodes[f].avail && Core(m') && FreeImage.Unlinked(m, f, m')
    ensures Valid(m') && OthersSame(m, f, m')
  {
    hide Core, ByteAt, CountFree;
    CoreShape(m);
  }

  /** The inode of a new directory: one block, which get_block just handed out. */
  lemma NewDir(m: Image, i: int, b: short, m1: Image)
    requires Valid(m) && 0 < i < 128 && !m.inodes[i].avail && Takes(m, b, m1)
    ensures var m' := m1.(inodes := m1.inodes[i := Inode(true, true, 2, 512, 1, UNMAPPED[0 := b])],
                          trees := m1.trees[i := map[Data(0) := b]], owner := m1.owner[b := Owned(i, Data(0))]);
            Valid(m') && OthersSame(m, i, m')
  {
    hide ByteAt, CountFree, Stored, Exact, Dense, AllStored;
    NewFile(m, i);
    var n := m.(inodes := m.inodes[i := NEW_FILE]);
    var n1 := m1.(inodes := m1.inodes[i := NEW_FILE]);
    FreeTree(m, i);
    TakesKeepsTrees(n, b, n1);
    TopPut(n1, i, Data(0), b, n1.disk[b]);
    var n2 := PutTop(n1, i, Data(0), b, n1.disk[b]);
    assert n2.disk == m.disk;
    assert n2.trees[i] == map[Data(0) := b];
    var m' := m1.(inodes := m1.inodes[i := Inode(true, true, 2, 512, 1, UNMAPPED[0 := b])],
                  trees := m1.trees[i := map[Data(0) := b]], owner := m1.owner[b := Owned(i, Data(0))]);
    OneBlock(m'.trees[i], b);
    SameStructure(n2, m', i);
    forall g | 0 <= g < 128 && g != i && m.inodes[g].avail
      ensures Contents(m', g) == Contents(m, g)
    {
    }
  }

  lemma FreeTree(m: Image, i: int)
    requires Structured(m) && 0 <= i < 128 && !m.inodes[i].avail
    ensures m.trees[i] == map[]
  {
  }

  lemma OneBlock(t: Tree, b: int)
    requires t == map[Data(0) := b]
    ensures Dense(t, 1)
  {
  }

  /** The tree structure does not depend on the stat fields. */
  lemma SameStructure(m: Image, m': Image, i: int)
    requires Structured(m) && 0 <= i < 128
    requires |m'.inodes| == 128 && m' == m.(inodes := m.inodes[i := m'.inodes[i]])
    requires m'.inodes[i].avail == m.inodes[i].avail && m'.inodes[i].blocks == m.inodes[i].blocks
    ensures Structured(m')
  {
    hide Stored, Exact;
  }

  /** A store with nothing but an empty root inode. */
  ghost predicate Bare(m: Image) {
    && Shape(m)
    && m.inodes[0].avail && m.inodes[0].isDir && m.inodes[0].blocks == UNMAPPED
    && (forall i :: 0 < i < 128 ==> !m.inodes[i].avail)
    && (forall i :: 0 <= i < 128 ==> m.trees[i] == map[])
    && (forall b :: 0 <= b < NUM_BLOCKS ==> !m.owner[b].Owned?)
  }

  lemma BareStructured(m: Image)
    requires Bare(m)
    ensures Structured(m)
  {
    hide Stored;
    NothingStored(m.disk);
  }

  /** Mounting a new disk: once block 0 is the data block of the root directory, the invariant holds. */
  lemma InitValid(m: Image, m': Image)
    requires Bare(m) && m.inodes[0].nblocks == 1 && CanSet(m, 0, 0, 0)
    requires forall b :: 0 < b < NUM_BLOCKS ==> m.owner[b] == Nobody
    requires Structured(m') && IsSet(m, 0, 0, 0, m')
    ensures Valid(m')
  {
    hide AllStored, CountFree;
    assert m'.trees[0] == map[Data(0) := 0];
    OneBlock(m'.trees[0], 0);
    assert m'.owner[m'.trees[0][Data(0)]] == Owned(0, Data(0));
  }

  /** The new inode, and every other inode as in the old image. */
  ghost predicate Fresh(m: Image, i: int, m1: Image)
    requires Shape(m) && 0 <= i < 128
  {
    && FileImage.Valid(m1) && OthersSame(m, i, m1)
    && m1.inodes == m.inodes[i := m1.inodes[i]]
  }

  /** The parent directory after its text was rewritten, its link count changed to n and its size to z. */
  ghost predicate Rewritten(m: Image, d: int, text: Text, n: int, z: int, m': Image)
    requires Shape(m) && 0 <= d < 128
  {
    && FileImage.Valid(m') && OthersSame(m, d, m')
    && m'.inodes == m.inodes[d := m.inodes[d].(nlink := n, size := z)]
    && Holds(Contents(m', d), text)
  }

  lemma RewriteDone(m: Image, d: int, buf: Block, text: Text, n: int, z: int)
    requires FileImage.Valid(m) && 0 <= d < 128 && m.inodes[d].avail && m.inodes[d].isDir && Holds(buf, text)
    ensures Data(0) in m.trees[d] && 0 <= m.trees[d][Data(0)] < NUM_BLOCKS
    ensures var m' := m.(disk := m.disk[m.trees[d][Data(0)] := buf], inodes := m.inodes[d := m.inodes[d].(nlink := n, size := z)]);
            Rewritten(m, d, text, n, z, m')
  {
    hide Core, Contents, Holds;
    CoreShape(m);
    DirWrite(m, d, buf);
    var m1 := m.(disk := m.disk[m.trees[d][Data(0)] := buf]);
    Restat(m1, d, n, z);
  }

  /** A new node at `path`: its inode i is complete in image m1; in m2 its parent d lists it too. */
  ghost predicate NodeMade(x: Tables, i: int, d: int, path: Text, isDir: bool, m1: Image, m2: Image) {
    && Shaped(x) && Shape(x.m)
    && 0 < i < 128 && !x.names[i].avail
    && 0 <= d < 128 && x.names[d].avail && x.m.inodes[d].isDir && 0 <= x.up[d]
    && GoodPath(path) && x.names[d].path == DirOf(path) && Lookup(x.names, path) < 0
    && Fresh(x.m, i, m1) && Shape(m1)
    && m1.inodes[i].avail && m1.inodes[i].isDir == isDir && NewStat(m1.inodes[i])
    && (if isDir then Holds(Contents(m1, i), Directory(i, d, [])) else Contents(m1, i) == [])
    && var item, s := Item(DirEntry(LeafOf(path), i)), m1.inodes[d];
       s.size + |item| + 1 < 0x8000_0000 && Rewritten(m1, d, Directory(d, x.up[d], x.entries[d]) + item, s.nlink + 1, s.size + |item| + 1, m2)
  }

  /** New inode, then entry in the parent: together they are what Links describes. */
  lemma LinkSteps(x: Tables, v: View, i: int, d: int, path: Text, isDir: bool, m1: Image, m2: Image)
    requires FsValid(x, v) && NodeMade(x, i, d, path, isDir, m1, m2)
    ensures FileImage.Valid(m2) && Links(x, i, d, path, isDir, m2)
  {
    hide Core, Contents, Holds, Directory, Lookup, GoodPath, LeafOf, DirOf, Wired, DirsStored, Abstracts, Item;
    DirectoryAppend(d, x.up[d], x.entries[d], DirEntry(LeafOf(path), i));
    CoreShape(m2);
  }

  /** File i, entry k of its parent: in image m1 the parent is rewritten, in m2 the inode is freed too. */
  ghost predicate NodeGone(x: Tables, i: int, k: int, m1: Image, m2: Image) {
    && Shaped(x) && Shape(x.m)
    && 0 < i < 128 && x.names[i].avail && !x.m.inodes[i].isDir && Listed(x, i)
    && var d := x.up[i];
    && 0 <= d < 128 && 0 <= x.up[d]
    && 0 <= k < |x.entries[d]| && x.entries[d][k] == DirEntry(LeafOf(x.names[i].path), i)
    && var s, es := x.m.inodes[d], Without(x.entries[d], k);
    && Quot(s.size) <= Quot(s.size - Spare(d, x.up[d], es))
    && Rewritten(x.m, d, Directory(d, x.up[d], es), s.nlink - 1, s.size - Spare(d, x.up[d], es), m1)
    && FileImage.Valid(m2) && Shape(m1) && OthersSame(m1, i, m2) && FreeImage.Unlinked(m1, i, m2)
  }

  /** Entry out of the parent, then the inode freed: together they are what Unlinks describes. */
  lemma UnlinkSteps(x: Tables, v: View, i: int, k: int, m1: Image, m2: Image)
    requires FsValid(x, v) && NodeGone(x, i, k, m1, m2)
    ensures Unlinks(x, i, k, m2)
  {
    hide Core, Contents, Holds, Directory, GoodPath, LeafOf, DirOf, Wired, DirsStored, Abstracts, Without, Quot, Spare;
    CoreShape(m2);
  }

  // ---------------------------------------------------------------- the texts, byte by byte

  /** The C string in a buffer. */
  predicate IsString(c: seq<byte>, t: Text) {
    Holds(c, t) && 0 !in t
  }

  /** "/", the name, "/" and the number n in digits. */
  ghost predicate IsItem(t: Text, name: Text, n: int) {
    exists w :: Prints(w, n) && t == [SLASH] + name + [SLASH] + w
  }

  ghost predicate Dirs(m: Image, m': Image, d: int) {
    |m.inodes| == |m.trees| == |m'.inodes| == |m'.trees| == 128 && 0 <= d < 128
  }

  /** Directory d has the item of n at the end of its text, one more link, and the item and its zero more in st_size. */
  ghost predicate DirGains(m: Image, m': Image, d: int, name: Text, n: int) {
    && Dirs(m, m', d)
    && exists t, item :: IsItem(item, name, n) && IsString(Contents(m, d), t) && IsString(Contents(m', d), t + item)
                         && m'.inodes[d] == m.inodes[d].(nlink := m.inodes[d].nlink + 1, size := m.inodes[d].size + |item| + 1)
  }

  /** Directory d has lost the item of n from its text, one link, and from st_size what the text leaves of its block. */
  ghost predicate DirLoses(m: Image, m': Image, d: int, name: Text, n: int) {
    && Dirs(m, m', d)
    && exists a, item, b ::
         && IsItem(item, name, n) && IsString(Contents(m, d), a + item + b) && IsString(Contents(m', d), a + b)
         && m'.inodes[d] == m.inodes[d].(nlink := m.inodes[d].nlink - 1, size := m.inodes[d].size - (512 - |a + b|))
  }

  /** Inode i is a directory with two links and 512 bytes, which hold "./i/../d". */
  ghost predicate NewDirectoryOf(m: Image, i: int, d: int) {
    && Dirs(m, m, i)
    && m.inodes[i].avail && m.inodes[i].isDir && m.inodes[i].nlink == 2 && m.inodes[i].size == 512 && m.inodes[i].nblocks == 1
    && exists self, up :: Prints(self, i) && Prints(up, d)
                          && IsString(Contents(m, i), [DOT, SLASH] + self + [SLASH, DOT, DOT, SLASH] + up)
  }

  lemma LinkGains(x: Tables, v: View, i: int, d: int, path: Text, isDir: bool, m': Image)
    requires FsValid(x, v) && FileImage.Valid(m') && Links(x, i, d, path, isDir, m')
    ensures DirGains(x.m, m', d, LeafOf(path), i)
    ensures isDir ==> NewDirectoryOf(m', i, d)
  {
    hide Contents, Holds, Directory, DirOf, LeafOf, Wired, Abstracts, Lookup, Core, Tallied, Decimal, Prints;
    assert DirStored(x.m, d, x.up[d], x.entries[d]);
    var e := DirEntry(LeafOf(path), i);
    var t, item := Directory(d, x.up[d], x.entries[d]), Item(e);
    DirectoryAppend(d, x.up[d], x.entries[d], e);
    DecimalPrints(i);
    assert IsItem(item, e.name, i);
    GoodWords(x.entries[d]);
    DirectoryNoZero(d, x.up[d], x.entries[d]);
    DirectoryNoZero(d, x.up[d], x.entries[d] + [e]);
    assert IsString(Contents(m', d), t + item);
    if isDir {
      DirectoryNoZero(i, d, []);
      EmptyDirectory(i, d);
      DecimalPrints(d);
      OneBlockEach(m', i);
    }
  }

  lemma OneBlockEach(m: Image, i: int)
    requires FileImage.Valid(m) && 0 <= i < 128 && |m.inodes| == 128 && m.inodes[i].avail && m.inodes[i].isDir
    ensures m.inodes[i].nblocks == 1
  {
  }

  lemma UnlinkLoses(x: Tables, v: View, i: int, k: int, m': Image)
    requires FsValid(x, v) && Unlinks(x, i, k, m')
    ensures DirLoses(x.m, m', x.up[i], LeafOf(x.names[i].path), i)
  {
    hide Contents, Holds, Directory, DirOf, LeafOf, Wired, Abstracts, Lookup, Core, Tallied, Decimal, Prints, Quot;
    ParentOf(x, v, i);
    var d := x.up[i];
    var es, e := x.entries[d], x.entries[d][k];
    var b := DirectoryAround(d, x.up[d], es, k);
    var a, item := Directory(d, x.up[d], es[..k]), Item(e);
    DecimalPrints(i);
    assert IsItem(item, e.name, i);
    GoodWords(es);
    DirectoryNoZero(d, x.up[d], es);
    DirectoryNoZero(d, x.up[d], Without(es, k));
    assert IsString(Contents(x.m, d), a + item + b) && IsString(Contents(m', d), a + b);
  }

  /** A buffer that starts with a zero-terminated text. */
  lemma BufferHolds(text: Text, after: seq<byte>)
    ensures Holds(text + [0] + after, text)
  {
    assert (text + [0] + after)[..|text|] == text;
  }

  lemma DecimalShort(n: nat)
    requires n < 1000
    ensures |Decimal(n)| <= 3
  {
    assert n >= 10 ==> |Decimal(n)| == |Decimal(n / 10)| + 1;
    assert n >= 100 ==> |Decimal(n / 10)| == |Decimal(n / 10 / 10)| + 1;
  }

  lemma NewDirectoryFits(i: nat, d: nat)
    requires i < 128 && d < 128
    ensures |Directory(i, d, [])| < 512
  {
    hide Decimal;
    DecimalShort(i);
    DecimalShort(d);
    SlashedAppend([Decimal(i)] + [[DOT, DOT]], [Decimal(d)]);
    SlashedAppend([Decimal(i)], [[DOT, DOT]]);
    assert DirWords(i, d, []) == [Decimal(i)] + [[DOT, DOT]] + [Decimal(d)];
  }
}
