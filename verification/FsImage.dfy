/** The whole file system as a value: block store, name table, directories and what they stand for
    (asst3/assignment3/src/sfs.c:61-72). */
module FsImage {
  import opened Blocks
  import opened IndexTree
  import opened StoreImage
  import opened FileImage
  import opened DirText
  import opened Paths
  import FreeImage

  /** path_map_t */
  datatype Mapping = Mapping(avail: bool, ino: int, path: Text)

  /** The tables, and the ghost directory structure: `up` is the parent of each inode, `entries` what each
      directory lists. */
  datatype Tables = Tables(m: Image, names: seq<Mapping>, up: seq<int>, entries: seq<seq<DirEntry>>)

  /** What the file system stands for: the bytes of each file path and the names in each directory path. */
  datatype View = View(files: map<Text, seq<byte>>, dirs: map<Text, seq<Text>>)

  predicate Shaped(x: Tables) {
    |x.m.inodes| == |x.m.trees| == |x.names| == |x.up| == |x.entries| == 128
  }

  /** path_lookup: the first slot with this path, or -1. */
  function Lookup(names: seq<Mapping>, p: Text): (i: int)
    ensures -1 <= i < |names|
    ensures i >= 0 ==> names[i].path == p
    ensures forall j :: 0 <= j < |names| && (i < 0 || j < i) ==> names[j].path != p
  {
    if names == [] then -1
    else if names[0].path == p then 0
    else
      var i := Lookup(names[1..], p);
      assert forall j :: 1 <= j < |names| ==> names[j] == names[1..][j - 1];
      if i < 0 then -1 else i + 1
  }

  /** The name table and the inode table are in lockstep, and live paths are unique. */
  ghost predicate Lockstep(inodes: seq<Inode>, names: seq<Mapping>) {
    && |inodes| == |names| == 128
    && (forall i :: 0 <= i < 128 ==> names[i].avail == inodes[i].avail)
    && (forall i :: 0 <= i < 128 ==> if names[i].avail then names[i].ino == i && names[i].path != [] else names[i].path == [])
    && (forall i, j :: 0 <= i < j < 128 && names[i].avail && names[j].avail ==> names[i].path != names[j].path)
    && names[0].avail && names[0].path == [SLASH]
  }

  /** Every file and directory but the root is listed in its parent under its leaf name, and nothing else is listed. */
  ghost predicate Wired(x: Tables)
    requires Shaped(x)
  {
    && (forall i :: 0 < i < 128 && x.names[i].avail ==> Listed(x, i))
    && (forall d, k :: 0 <= d < 128 && x.names[d].avail && x.m.inodes[d].isDir && 0 <= k < |x.entries[d]| ==>
          var e := x.entries[d][k]; 0 < e.ino < 128 && x.names[e.ino].avail && x.up[e.ino] == d
                                    && LeafOf(x.names[e.ino].path) == e.name)
    && x.up[0] == 0
  }

  ghost predicate Listed(x: Tables, i: int)
    requires Shaped(x) && 0 < i < 128
  {
    && GoodPath(x.names[i].path)
    && 0 <= x.up[i] < 128 && x.names[x.up[i]].avail && x.m.inodes[x.up[i]].isDir
    && DirOf(x.names[i].path) == x.names[x.up[i]].path
    && DirEntry(LeafOf(x.names[i].path), i) in x.entries[x.up[i]]
  }

  /** The C string in a buffer is t. */
  predicate Holds(c: seq<byte>, t: Text) {
    |t| < |c| && c[..|t|] == t && c[|t|] == 0
  }

  /** Directory d holds its text, which with its terminating zero fits one block. */
  ghost predicate DirStored(m: Image, d: int, up: int, es: seq<DirEntry>)
    requires 0 <= d < |m.inodes| && |m.inodes| == |m.trees|
  {
    && 0 <= up
    && GoodEntries(es)
    && Holds(Contents(m, d), Directory(d, up, es))
  }

  ghost predicate DirsStored(x: Tables)
    requires Shaped(x)
  {
    forall d :: 0 <= d < 128 && x.m.inodes[d].avail && x.m.inodes[d].isDir ==> DirStored(x.m, d, x.up[d], x.entries[d])
  }

  /** Every live path is in the view, with its contents. */
  ghost predicate Covered(x: Tables, v: View)
    requires Shaped(x)
  {
    forall i :: 0 <= i < 128 && x.m.inodes[i].avail ==>
      if x.m.inodes[i].isDir then x.names[i].path in v.dirs && v.dirs[x.names[i].path] == Names(x.entries[i])
      else x.names[i].path in v.files && v.files[x.names[i].path] == Contents(x.m, i)
  }

  /** The view holds live paths only. */
  ghost predicate Backed(inodes: seq<Inode>, names: seq<Mapping>, v: View)
    requires |inodes| == |names|
  {
    && (forall p :: p in v.files ==> p != [] && Lookup(names, p) >= 0 && !inodes[Lookup(names, p)].isDir)
    && (forall p :: p in v.dirs ==> p != [] && Lookup(names, p) >= 0 && inodes[Lookup(names, p)].isDir)
  }

  /** The view is exactly what the tables hold. */
  ghost predicate Abstracts(x: Tables, v: View)
    requires Shaped(x)
  {
    Covered(x, v) && Backed(x.m.inodes, x.names, v)
  }

  // `/` and `%` by BLOCK_SIZE truncate toward zero.

  function Quot(x: int): (q: int)
    ensures if x >= 0 then 0 <= x - 512 * q < 512 else -512 < x - 512 * q <= 0
  {
    if x >= 0 then x / 512 else -(-x / 512)
  }

  function Rem(x: int): (r: int)
    ensures (x - r) % 512 == 0 && (if x >= 0 then 0 <= r < 512 else -512 < r <= 0)
  {
    x - 512 * Quot(x)
  }

  /** The stat fields: a directory with n entries has n + 2 links and a size that fits an int; a free inode is zeroed. */
  predicate Tally(i: Inode, n: int) {
    if !i.avail then FreeImage.Blank(i)
    else if i.isDir then i.nlink == n + 2 && -512 < i.size < 0x8000_0000
    else i.nlink == 1
  }

  ghost predicate Tallied(x: Tables)
    requires Shaped(x)
  {
    && (forall i :: 0 <= i < 128 ==> Tally(x.m.inodes[i], |x.entries[i]|))
    && (forall i :: 0 <= i < 128 ==> -1 <= x.names[i].ino < 128)
  }

  ghost predicate FsValid(x: Tables, v: View) {
    && Valid(x.m)
    && Shaped(x)
    && Lockstep(x.m.inodes, x.names)
    && Wired(x)
    && DirsStored(x)
    && Abstracts(x, v)
    && Tallied(x)
  }

  lemma {:induction false} LookupLive(inodes: seq<Inode>, names: seq<Mapping>, i: int)
    requires Lockstep(inodes, names) && 0 <= i < 128 && names[i].avail
    ensures Lookup(names, names[i].path) == i
  {
    hide Lookup;
    var l := Lookup(names, names[i].path);
    assert 0 <= l <= i;
    assert names[l].avail;
  }

  lemma LookupFound(inodes: seq<Inode>, names: seq<Mapping>, p: Text)
    requires Lockstep(inodes, names) && p != [] && Lookup(names, p) >= 0
    ensures names[Lookup(names, p)].avail
  {
  }

  // ---------------------------------------------------------------- appending to a file

  /** Same inodes in use, and of the same kind. */
  ghost predicate SameKinds(inodes: seq<Inode>, inodes': seq<Inode>) {
    && |inodes| == |inodes'|
    && (forall i :: 0 <= i < |inodes| ==>
          inodes[i].avail == inodes'[i].avail && inodes[i].isDir == inodes'[i].isDir)
  }

  /** Inode f has grown; all others are as they were. */
  ghost predicate Extended(inodes: seq<Inode>, f: int, inodes': seq<Inode>) {
    && |inodes| == |inodes'| && 0 <= f < |inodes|
    && inodes'[f].avail == inodes[f].avail && inodes'[f].isDir == inodes[f].isDir && inodes'[f].nlink == inodes[f].nlink
    && (forall g :: 0 <= g < |inodes| && g != f ==> inodes'[g] == inodes[g])
  }

  lemma KeepWired(x: Tables, m': Image)
    requires Shaped(x) && Shaped(x.(m := m')) && Wired(x) && SameKinds(x.m.inodes, m'.inodes)
    ensures Wired(x.(m := m'))
  {
    hide GoodPath, DirOf, LeafOf;
    var y := x.(m := m');
    forall i | 0 < i < 128 && y.names[i].avail
      ensures Listed(y, i)
    {
      assert Listed(x, i);
    }
  }

  lemma KeepDirs(x: Tables, m': Image)
    requires Shaped(x) && Shaped(x.(m := m')) && DirsStored(x) && SameKinds(x.m.inodes, m'.inodes)
    requires forall d :: 0 <= d < 128 && x.m.inodes[d].avail && x.m.inodes[d].isDir ==> Contents(m', d) == Contents(x.m, d)
    ensures DirsStored(x.(m := m'))
  {
    hide Contents, Directory, GoodEntries, Holds;
  }

  lemma AppendAbstracts(x: Tables, v: View, f: int, data: seq<byte>, m': Image)
    requires Shaped(x) && Shaped(x.(m := m')) && Abstracts(x, v) && Lockstep(x.m.inodes, x.names)
    requires SameKinds(x.m.inodes, m'.inodes)
    requires 0 <= f < 128 && x.m.inodes[f].avail && !x.m.inodes[f].isDir
    requires Contents(m', f) == Contents(x.m, f) + data
    requires forall g :: 0 <= g < 128 && g != f && x.m.inodes[g].avail ==> Contents(m', g) == Contents(x.m, g)
    ensures var p := x.names[f].path; p in v.files && Abstracts(x.(m := m'), v.(files := v.files[p := v.files[p] + data]))
  {
    hide Contents, Lookup, Names;
    LookupLive(x.m.inodes, x.names, f);
  }

  lemma AppendFs(x: Tables, v: View, f: int, data: seq<byte>, m': Image)
    requires FsValid(x, v) && 0 <= f < 128 && x.m.inodes[f].avail && !x.m.inodes[f].isDir
    requires Valid(m') && OthersSame(x.m, f, m') && Contents(m', f) == Contents(x.m, f) + data
    requires Extended(x.m.inodes, f, m'.inodes)
    ensures var p := x.names[f].path;
            p in v.files && FsValid(x.(m := m'), v.(files := v.files[p := v.files[p] + data]))
  {
    hide Core, Contents, Wired, DirStored, Abstracts;
    CoreShape(x.m);
    CoreShape(m');
    assert SameKinds(x.m.inodes, m'.inodes);
    KeepWired(x, m');
    KeepDirs(x, m');
    AppendAbstracts(x, v, f, data, m');
  }

  // ---------------------------------------------------------------- creating a file or a directory

  /** What sfs_create and sfs_mkdir do to the block store: inode i is new, the text of its parent d gained its item,
      and every other inode keeps kind, link count and contents. */
  ghost predicate Links(x: Tables, i: int, d: int, path: Text, isDir: bool, m': Image)
    requires Shaped(x)
  {
    && |m'.inodes| == |m'.trees| == 128
    && 0 < i < 128 && !x.names[i].avail
    && 0 <= d < 128 && x.names[d].avail && x.m.inodes[d].isDir
    && GoodPath(path) && x.names[d].path == DirOf(path) && Lookup(x.names, path) < 0
    && m'.inodes[i].avail && m'.inodes[i].isDir == isDir && NewStat(m'.inodes[i])
    && (forall g :: 0 <= g < 128 && g != i && g != d ==> m'.inodes[g] == x.m.inodes[g])
    && m'.inodes[d] == Entered(x.m.inodes[d], DirEntry(LeafOf(path), i)) && m'.inodes[d].size < 0x8000_0000
    && (forall g :: 0 <= g < 128 && g != i ==>
          && m'.inodes[g].avail == x.m.inodes[g].avail
          && m'.inodes[g].isDir == x.m.inodes[g].isDir
          && (g == d || m'.inodes[g].nlink == x.m.inodes[g].nlink)
          && (g == d || !x.m.inodes[g].avail || Contents(m', g) == Contents(x.m, g)))
    && (if isDir then Holds(Contents(m', i), Directory(i, d, [])) else Contents(m', i) == [])
    && 0 <= x.up[d] && var es := x.entries[d] + [DirEntry(LeafOf(path), i)];
       Holds(Contents(m', d), Directory(d, x.up[d], es))
  }

  /** The stat fields sfs_create and sfs_mkdir give a new inode. */
  predicate NewStat(i: Inode) {
    i.nlink == (if i.isDir then 2 else 1) && (i.isDir ==> i.size == 512)
  }

  /** The inode of a directory after an item was entered (sfs.c:620, 631-632). */
  function Entered(d: Inode, e: DirEntry): Inode {
    d.(nlink := d.nlink + 1, size := d.size + |Item(e)| + 1)
  }

  function Linked(x: Tables, i: int, d: int, path: Text, m': Image): (y: Tables)
    requires Shaped(x) && 0 <= i < 128 && 0 <= d < 128
    ensures |m'.inodes| == |m'.trees| == 128 ==> Shaped(y)
  {
    Tables(m', x.names[i := Mapping(true, i, path)], x.up[i := d],
           x.entries[d := x.entries[d] + [DirEntry(LeafOf(path), i)]][i := []])
  }

  /** What creating means: an empty file or directory, listed last in its parent. */
  function WithNode(v: View, path: Text, isDir: bool): View
    requires DirOf(path) in v.dirs
  {
    var listed := v.dirs[DirOf(path) := v.dirs[DirOf(path)] + [LeafOf(path)]];
    if isDir then v.(dirs := listed[path := []]) else View(v.files[path := []], listed)
  }

  ghost predicate FirstFree(names: seq<Mapping>, i: int) {
    0 <= i < |names| && !names[i].avail && forall j :: 0 <= j < i ==> names[j].avail
  }

  /** The parent of a new path exists, there is a free slot, and the item of the new inode still fits the block of the
      parent, as the text and as the st_size of the parent count (sfs.c:625). */
  ghost predicate Room(x: Tables, path: Text)
    requires Shaped(x)
  {
    var d := Lookup(x.names, DirOf(path));
    && 0 <= d && x.m.inodes[d].isDir && 0 <= x.up[d]
    && (exists i :: 0 <= i < 128 && !x.names[i].avail)
    && (forall i :: 0 <= i < 128 && FirstFree(x.names, i) ==>
          var e, size := DirEntry(LeafOf(path), i), x.m.inodes[d].size;
          && |Directory(d, x.up[d], x.entries[d])| + |Item(e)| < 512
          && Rem(size) + |Item(e)| + 1 <= 512 && size + |Item(e)| + 1 < 0x8000_0000)
  }

  /** Naming a free slot changes no other lookup. */
  lemma LookupOther(inodes: seq<Inode>, names: seq<Mapping>, i: int, path: Text, p: Text)
    requires Lockstep(inodes, names) && 0 <= i < 128 && !names[i].avail && p != [] && p != path
    ensures Lookup(names[i := Mapping(true, i, path)], p) == Lookup(names, p)
  {
    hide Lookup;
    var new1, l, l' := names[i := Mapping(true, i, path)], Lookup(names, p), Lookup(names[i := Mapping(true, i, path)], p);
    assert l' >= 0 ==> names[l'].path == p;
    assert l >= 0 ==> new1[l].path == p;
  }

  lemma LinkLockstep(x: Tables, i: int, d: int, path: Text, isDir: bool, m': Image)
    requires Shaped(x) && Lockstep(x.m.inodes, x.names) && Links(x, i, d, path, isDir, m')
    ensures Lockstep(m'.inodes, Linked(x, i, d, path, m').names)
  {
    hide Lookup, Contents, Directory, Holds, LeafOf;
  }

  /** The new leaf is not yet listed: another child of d with this leaf would have the new path. */
  lemma LeafIsNew(x: Tables, d: int, path: Text)
    requires Shaped(x) && Lockstep(x.m.inodes, x.names) && Wired(x)
    requires 0 <= d < 128 && x.names[d].avail && x.m.inodes[d].isDir
    requires GoodPath(path) && x.names[d].path == DirOf(path) && Lookup(x.names, path) < 0
    ensures forall k :: 0 <= k < |x.entries[d]| ==> x.entries[d][k].name != LeafOf(path)
  {
    hide Lookup, GoodPath, DirOf, LeafOf;
    forall k | 0 <= k < |x.entries[d]|
      ensures x.entries[d][k].name != LeafOf(path)
    {
      var c := x.entries[d][k].ino;
      assert Listed(x, c);
      PathParts(x.names[c].path);
      PathParts(path);
      LookupLive(x.m.inodes, x.names, c);
    }
  }

  lemma LinkWired(x: Tables, i: int, d: int, path: Text, isDir: bool, m': Image)
    requires Shaped(x) && Lockstep(x.m.inodes, x.names) && Wired(x) && Links(x, i, d, path, isDir, m')
    ensures Wired(Linked(x, i, d, path, m'))
  {
    hide Lookup, Contents, Directory, Holds, GoodPath, DirOf, LeafOf;
    var y, e := Linked(x, i, d, path, m'), DirEntry(LeafOf(path), i);
    assert y.entries[d][|x.entries[d]|] == e;
    forall c | 0 < c < 128 && y.names[c].avail
      ensures Listed(y, c)
    {
      if c != i {
        assert Listed(x, c);
        assert y.up[c] == d ==> y.entries[d] == x.entries[d] + [e];
      }
    }
    LinkListing(x, i, d, path, isDir, m');
  }

  /** What the directories list afterwards. */
  lemma LinkListing(x: Tables, i: int, d: int, path: Text, isDir: bool, m': Image)
    requires Shaped(x) && Lockstep(x.m.inodes, x.names) && Wired(x) && Links(x, i, d, path, isDir, m')
    ensures var y := Linked(x, i, d, path, m');
            forall c, k :: 0 <= c < 128 && y.names[c].avail && y.m.inodes[c].isDir && 0 <= k < |y.entries[c]| ==>
              var e := y.entries[c][k]; 0 < e.ino < 128 && y.names[e.ino].avail && y.up[e.ino] == c
                                        && LeafOf(y.names[e.ino].path) == e.name
  {
    hide Lookup, Contents, Directory, Holds, GoodPath, DirOf, LeafOf, Listed;
    var y := Linked(x, i, d, path, m');
    forall c, k | 0 <= c < 128 && y.names[c].avail && y.m.inodes[c].isDir && 0 <= k < |y.entries[c]|
      ensures var e := y.entries[c][k]; 0 < e.ino < 128 && y.names[e.ino].avail && y.up[e.ino] == c
                                        && LeafOf(y.names[e.ino].path) == e.name
    {
      if c != i && k < |x.entries[c]| {
        assert y.entries[c][k] == x.entries[c][k];
      }
    }
  }

  lemma GoodEntriesAppend(es: seq<DirEntry>, e: DirEntry)
    requires GoodEntries(es) && Word(e.name)
    requires forall k :: 0 <= k < |es| ==> es[k].name != e.name
    ensures GoodEntries(es + [e])
  {
  }

  lemma LinkDirs(x: Tables, i: int, d: int, path: Text, isDir: bool, m': Image)
    requires Shaped(x) && Lockstep(x.m.inodes, x.names) && Wired(x) && DirsStored(x) && Links(x, i, d, path, isDir, m')
    ensures DirsStored(Linked(x, i, d, path, m'))
  {
    hide Lookup, Contents, Directory, Holds, DirOf, LeafOf, GoodEntries, Wired;
    var y := Linked(x, i, d, path, m');
    LeafIsNew(x, d, path);
    GoodEntriesAppend(x.entries[d], DirEntry(LeafOf(path), i));
    NoEntries();
    forall c | 0 <= c < 128 && m'.inodes[c].avail && m'.inodes[c].isDir
      ensures DirStored(m', c, y.up[c], y.entries[c])
    {
      if c != i {
        assert DirStored(x.m, c, x.up[c], x.entries[c]);
      }
    }
  }

  lemma NoEntries()
    ensures GoodEntries([])
  {
  }

  lemma NamesAppend(es: seq<DirEntry>, e: DirEntry)
    ensures Names(es + [e]) == Names(es) + [e.name]
    ensures Names([]) == []
  {
  }

  lemma LinkLookup(x: Tables, i: int, d: int, path: Text, isDir: bool, m': Image, p: Text)
    requires Shaped(x) && Lockstep(x.m.inodes, x.names) && Links(x, i, d, path, isDir, m')
    requires p != [] && p != path && Lookup(x.names, p) >= 0
    ensures Lookup(Linked(x, i, d, path, m').names, p) == Lookup(x.names, p) != i
  {
    hide Lookup, Contents, Directory, Holds, GoodPath, DirOf, LeafOf;
    var y := Linked(x, i, d, path, m');
    LinkLockstep(x, i, d, path, isDir, m');
    LookupFound(x.m.inodes, x.names, p);
    LookupLive(m'.inodes, y.names, Lookup(x.names, p));
  }

  lemma LinkBacked(x: Tables, v: View, i: int, d: int, path: Text, isDir: bool, m': Image)
    requires Shaped(x) && Lockstep(x.m.inodes, x.names) && Backed(x.m.inodes, x.names, v)
    requires Links(x, i, d, path, isDir, m') && DirOf(path) in v.dirs
    ensures Backed(m'.inodes, Linked(x, i, d, path, m').names, WithNode(v, path, isDir))
  {
    hide Lookup, Links, DirOf, LeafOf, Lockstep;
    LinkKinds(x, i, d, path, isDir, m');
    var y, w := Linked(x, i, d, path, m'), WithNode(v, path, isDir);
    LinkLockstep(x, i, d, path, isDir, m');
    LookupLive(m'.inodes, y.names, i);
    forall p | p in v.files || p in v.dirs
      ensures p != path && Lookup(y.names, p) == Lookup(x.names, p) != i
    {
      LinkLookup(x, i, d, path, isDir, m', p);
    }
  }

  /** What creating does to the kinds of the inodes. */
  lemma LinkKinds(x: Tables, i: int, d: int, path: Text, isDir: bool, m': Image)
    requires Shaped(x) && Links(x, i, d, path, isDir, m')
    ensures |m'.inodes| == |m'.trees| == 128 && 0 < i < 128 && 0 <= d < 128 && path != [] && Lookup(x.names, path) < 0
    ensures m'.inodes[i].isDir == isDir && forall g :: 0 <= g < 128 && g != i ==> m'.inodes[g].isDir == x.m.inodes[g].isDir
  {
    hide Lookup, Contents, Directory, Holds, DirOf, LeafOf, Entered, NewStat;
  }

  lemma LinkCovered(x: Tables, v: View, i: int, d: int, path: Text, isDir: bool, m': Image)
    requires Shaped(x) && Lockstep(x.m.inodes, x.names) && Covered(x, v)
    requires Links(x, i, d, path, isDir, m')
    ensures DirOf(path) in v.dirs
    ensures Covered(Linked(x, i, d, path, m'), WithNode(v, path, isDir))
  {
    hide Lookup, Contents, Directory, Holds, GoodPath, DirOf, LeafOf, Names;
    NamesAppend(x.entries[d], DirEntry(LeafOf(path), i));
    var y, w := Linked(x, i, d, path, m'), WithNode(v, path, isDir);
    assert forall c :: 0 <= c < 128 && x.names[c].avail ==> x.names[c].path != path;
    forall c | 0 <= c < 128 && m'.inodes[c].avail
      ensures if m'.inodes[c].isDir then y.names[c].path in w.dirs && w.dirs[y.names[c].path] == Names(y.entries[c])
              else y.names[c].path in w.files && w.files[y.names[c].path] == Contents(m', c)
    {
      if c != i {
        assert x.m.inodes[c].avail && y.names[c] == x.names[c];
      }
    }
  }

  lemma LinkAbstracts(x: Tables, v: View, i: int, d: int, path: Text, isDir: bool, m': Image)
    requires Shaped(x) && Lockstep(x.m.inodes, x.names) && Abstracts(x, v) && Links(x, i, d, path, isDir, m')
    ensures DirOf(path) in v.dirs
    ensures Abstracts(Linked(x, i, d, path, m'), WithNode(v, path, isDir))
  {
    hide Lookup, Contents, Directory, Holds, GoodPath, DirOf, LeafOf, Names, Covered, Backed, Lockstep;
    LinkCovered(x, v, i, d, path, isDir, m');
    LinkBacked(x, v, i, d, path, isDir, m');
  }

  lemma LinkTallied(x: Tables, i: int, d: int, path: Text, isDir: bool, m': Image)
    requires Shaped(x) && Tallied(x) && Lockstep(x.m.inodes, x.names) && Links(x, i, d, path, isDir, m')
    ensures Tallied(Linked(x, i, d, path, m'))
  {
    hide Contents, Lookup, GoodPath, DirOf, LeafOf, Directory, Holds, Item;
    var y := Linked(x, i, d, path, m');
    forall g | 0 <= g < 128
      ensures Tally(m'.inodes[g], |y.entries[g]|)
    {
      assert Tally(x.m.inodes[g], |x.entries[g]|);
    }
  }

  lemma LinkFs(x: Tables, v: View, i: int, d: int, path: Text, isDir: bool, m': Image)
    requires FsValid(x, v) && Valid(m') && Links(x, i, d, path, isDir, m')
    ensures DirOf(path) in v.dirs && FsValid(Linked(x, i, d, path, m'), WithNode(v, path, isDir))
  {
    hide Core, Contents, Wired, DirsStored, Abstracts, Lockstep, Lookup, GoodPath, DirOf, LeafOf, Directory, Holds, WithNode, Tallied;
    LinkLockstep(x, i, d, path, isDir, m');
    LinkTallied(x, i, d, path, isDir, m');
    LinkWired(x, i, d, path, isDir, m');
    LinkDirs(x, i, d, path, isDir, m');
    LinkAbstracts(x, v, i, d, path, isDir, m');
  }

  // ---------------------------------------------------------------- removing a file

  /** What sfs_unlink does to the block store: file i is gone, entry k, its item, is gone from the text of its parent,
      and every other inode keeps kind, link count and contents. */
  ghost predicate Unlinks(x: Tables, i: int, k: int, m': Image)
    requires Shaped(x)
  {
    && |m'.inodes| == |m'.trees| == 128
    && 0 < i < 128 && x.names[i].avail && !x.m.inodes[i].isDir
    && var d := x.up[i];
    && 0 <= d < 128 && d != i
    && 0 <= k < |x.entries[d]| && x.entries[d][k] == DirEntry(LeafOf(x.names[i].path), i)
    && FreeImage.Blank(m'.inodes[i])
    && (forall g :: 0 <= g < 128 && g != i && g != d ==> m'.inodes[g] == x.m.inodes[g])
    && m'.inodes[d] == Erased(x.m.inodes[d], Spare(d, x.up[d], Without(x.entries[d], k))) && Quot(x.m.inodes[d].size) <= Quot(m'.inodes[d].size)
    && (forall g :: 0 <= g < 128 && g != i ==>
          && m'.inodes[g].avail == x.m.inodes[g].avail
          && m'.inodes[g].isDir == x.m.inodes[g].isDir
          && (g == d || m'.inodes[g].nlink == x.m.inodes[g].nlink)
          && (g == d || !x.m.inodes[g].avail || Contents(m', g) == Contents(x.m, g)))
    && 0 <= x.up[d] && var es := Without(x.entries[d], k);
       Holds(Contents(m', d), Directory(d, x.up[d], es))
  }

  /** `resize`: what the text of a directory leaves of its block (sfs.c:673). */
  function Spare(self: int, up: int, es: seq<DirEntry>): int {
    if self < 0 || up < 0 then 0 else 512 - |Directory(self, up, es)|
  }

  /** The inode of a directory after an entry was taken out of it (sfs.c:685-686). */
  function Erased(d: Inode, resize: int): Inode {
    d.(nlink := d.nlink - 1, size := d.size - resize)
  }

  function Without<T>(s: seq<T>, k: int): seq<T>
    requires 0 <= k < |s|
  {
    s[..k] + s[k + 1..]
  }

  function Unlinked(x: Tables, i: int, k: int, m': Image): (y: Tables)
    requires Shaped(x) && 0 <= i < 128 && 0 <= x.up[i] < 128 && 0 <= k < |x.entries[x.up[i]]|
    ensures |m'.inodes| == |m'.trees| == 128 ==> Shaped(y)
  {
    Tables(m', x.names[i := Mapping(false, -1, [])], x.up, x.entries[x.up[i] := Without(x.entries[x.up[i]], k)])
  }

  /** What unlinking means: the file is gone, and its leaf from the listing of its directory. */
  function WithoutNode(v: View, path: Text): View
    requires DirOf(path) in v.dirs
  {
    View(v.files - {path}, v.dirs[DirOf(path) := Minus(v.dirs[DirOf(path)], LeafOf(path))])
  }

  /** A list without its first occurrence of n. */
  function Minus(ns: seq<Text>, n: Text): seq<Text> {
    if ns == [] then [] else if ns[0] == n then ns[1..] else [ns[0]] + Minus(ns[1..], n)
  }

  lemma {:induction false} MinusAt(ns: seq<Text>, k: int)
    requires 0 <= k < |ns| && forall j :: 0 <= j < k ==> ns[j] != ns[k]
    ensures Minus(ns, ns[k]) == Without(ns, k)
  {
    if k > 0 {
      var rest := ns[1..];
      assert rest[k - 1] == ns[k] && forall j :: 0 <= j < k - 1 ==> rest[j] == ns[j + 1];
      MinusAt(rest, k - 1);
      assert [ns[0]] + rest[..k - 1] == ns[..k] && rest[k..] == ns[k + 1..];
    }
  }

  lemma NamesWithout(es: seq<DirEntry>, k: int)
    requires GoodEntries(es) && 0 <= k < |es|
    ensures Names(Without(es, k)) == Minus(Names(es), es[k].name)
    ensures GoodEntries(Without(es, k))
  {
    var ns := Names(es);
    MinusAt(ns, k);
    assert Names(Without(es, k)) == Without(ns, k);
  }

  lemma UnlinkLockstep(x: Tables, i: int, k: int, m': Image)
    requires Shaped(x) && Lockstep(x.m.inodes, x.names) && Unlinks(x, i, k, m')
    ensures Lockstep(m'.inodes, Unlinked(x, i, k, m').names)
  {
    hide Contents, Directory, Holds, LeafOf;
  }

  lemma UnlinkListed(x: Tables, i: int, k: int, m': Image, c: int)
    requires Shaped(x) && Unlinks(x, i, k, m') && 0 < c < 128 && c != i && Listed(x, c)
    ensures Listed(Unlinked(x, i, k, m'), c)
  {
    hide Contents, Directory, Holds, GoodPath, DirOf, LeafOf;
    if x.up[c] == x.up[i] {
      InWithout(x.entries[x.up[i]], k, DirEntry(LeafOf(x.names[c].path), c));
    }
  }

  /** Entry j of a directory after the removal is an entry it had before, and not the one of i. */
  lemma UnlinkEntry(x: Tables, i: int, k: int, m': Image, c: int, j: int)
    requires Shaped(x) && Unlinks(x, i, k, m') && GoodEntries(x.entries[x.up[i]]) && Wired(x)
    requires 0 <= c < 128 && x.names[c].avail && x.m.inodes[c].isDir && 0 <= j < |Unlinked(x, i, k, m').entries[c]|
    ensures var e := Unlinked(x, i, k, m').entries[c][j];
            0 < e.ino < 128 && e.ino != i && x.names[e.ino].avail && x.up[e.ino] == c && LeafOf(x.names[e.ino].path) == e.name
  {
    hide Contents, Directory, Holds, LeafOf, Listed;
    var j' := if c == x.up[i] && j >= k then j + 1 else j;
    assert Unlinked(x, i, k, m').entries[c][j] == x.entries[c][j'];
    assert c == x.up[i] ==> x.entries[c][j'].name != x.entries[c][k].name;
  }

  lemma UnlinkWired(x: Tables, i: int, k: int, m': Image)
    requires Shaped(x) && Lockstep(x.m.inodes, x.names) && Wired(x) && Unlinks(x, i, k, m')
    requires GoodEntries(x.entries[x.up[i]])
    ensures Wired(Unlinked(x, i, k, m'))
  {
    hide Contents, Directory, Holds, LeafOf, GoodEntries, Listed, Without;
    var y := Unlinked(x, i, k, m');
    forall c | 0 < c < 128 && y.names[c].avail
      ensures Listed(y, c)
    {
      UnlinkListed(x, i, k, m', c);
    }
    forall c, j | 0 <= c < 128 && y.names[c].avail && m'.inodes[c].isDir && 0 <= j < |y.entries[c]|
      ensures var e := y.entries[c][j]; 0 < e.ino < 128 && y.names[e.ino].avail && y.up[e.ino] == c
                                        && LeafOf(y.names[e.ino].path) == e.name
    {
      UnlinkEntry(x, i, k, m', c, j);
    }
  }

  lemma InWithout<T>(s: seq<T>, k: int, e: T)
    requires 0 <= k < |s| && e in s && e != s[k]
    ensures e in Without(s, k)
  {
    var j :| 0 <= j < |s| && s[j] == e;
    assert Without(s, k)[if j < k then j else j - 1] == e;
  }

  lemma UnlinkDirs(x: Tables, i: int, k: int, m': Image)
    requires Shaped(x) && DirsStored(x) && Unlinks(x, i, k, m') && GoodEntries(x.entries[x.up[i]])
    ensures DirsStored(Unlinked(x, i, k, m'))
  {
    hide Contents, Directory, Holds, LeafOf, GoodEntries;
    NamesWithout(x.entries[x.up[i]], k);
    var y := Unlinked(x, i, k, m');
    forall c | 0 <= c < 128 && m'.inodes[c].avail && m'.inodes[c].isDir
      ensures DirStored(m', c, y.up[c], y.entries[c])
    {
      assert DirStored(x.m, c, x.up[c], x.entries[c]);
    }
  }

  lemma UnlinkCovered(x: Tables, v: View, i: int, k: int, m': Image)
    requires Shaped(x) && Lockstep(x.m.inodes, x.names) && Covered(x, v) && Unlinks(x, i, k, m') && Listed(x, i)
    requires GoodEntries(x.entries[x.up[i]])
    ensures DirOf(x.names[i].path) in v.dirs
    ensures Covered(Unlinked(x, i, k, m'), WithoutNode(v, x.names[i].path))
  {
    hide Contents, Directory, Holds, LeafOf, DirOf, GoodPath, GoodEntries, Names, Minus;
    var y, w, d := Unlinked(x, i, k, m'), WithoutNode(v, x.names[i].path), x.up[i];
    NamesWithout(x.entries[d], k);
    forall c | 0 <= c < 128 && m'.inodes[c].avail
      ensures if m'.inodes[c].isDir then y.names[c].path in w.dirs && w.dirs[y.names[c].path] == Names(y.entries[c])
              else y.names[c].path in w.files && w.files[y.names[c].path] == Contents(m', c)
    {
      assert x.m.inodes[c].avail && y.names[c] == x.names[c] && y.names[c].path != x.names[i].path;
    }
  }

  lemma UnlinkBacked(x: Tables, v: View, i: int, k: int, m': Image)
    requires Shaped(x) && Lockstep(x.m.inodes, x.names) && Backed(x.m.inodes, x.names, v) && Unlinks(x, i, k, m')
    requires DirOf(x.names[i].path) in v.dirs
    ensures Backed(m'.inodes, Unlinked(x, i, k, m').names, WithoutNode(v, x.names[i].path))
  {
    hide Lookup, Contents, Directory, Holds, DirOf, LeafOf, Minus, Lockstep, Spare, Erased, Without;
    var y, w, path := Unlinked(x, i, k, m'), WithoutNode(v, x.names[i].path), x.names[i].path;
    UnlinkLockstep(x, i, k, m');
    LookupLive(x.m.inodes, x.names, i);
    forall p | p in w.files || p in w.dirs
      ensures p in v.files || p in v.dirs
      ensures Lookup(y.names, p) == Lookup(x.names, p) != i
    {
      LookupFound(x.m.inodes, x.names, p);
      LookupLive(m'.inodes, y.names, Lookup(x.names, p));
    }
  }

  lemma SpareSize(m: Image, d: int, up: int, es: seq<DirEntry>)
    requires 0 <= d < |m.inodes| && |m.inodes| == |m.trees| && m.inodes[d].isDir && 0 <= up
    requires Holds(Contents(m, d), Directory(d, up, es))
    ensures 0 < Spare(d, up, es)
  {
    hide ByteAt, Directory;
  }

  lemma UnlinkTallied(x: Tables, i: int, k: int, m': Image)
    requires Shaped(x) && Tallied(x) && Unlinks(x, i, k, m')
    requires x.m.inodes[x.up[i]].avail && x.m.inodes[x.up[i]].isDir
    ensures Tallied(Unlinked(x, i, k, m'))
  {
    hide Contents, LeafOf, Directory, Holds, Spare;
    var y, d := Unlinked(x, i, k, m'), x.up[i];
    SpareSize(m', d, x.up[d], Without(x.entries[d], k));
    forall g | 0 <= g < 128
      ensures Tally(m'.inodes[g], |y.entries[g]|)
    {
      assert Tally(x.m.inodes[g], |x.entries[g]|);
    }
  }

  lemma UnlinkFs(x: Tables, v: View, i: int, k: int, m': Image)
    requires FsValid(x, v) && Valid(m') && Unlinks(x, i, k, m')
    ensures var path := x.names[i].path;
            DirOf(path) in v.dirs && FsValid(Unlinked(x, i, k, m'), WithoutNode(v, path))
  {
    hide Core, Contents, DirsStored, Covered, Backed, Lockstep, Lookup, GoodPath, DirOf, LeafOf, Directory, Holds, WithoutNode, Tallied;
    ParentOf(x, v, i);
    UnlinkTallied(x, i, k, m');
    UnlinkLockstep(x, i, k, m');
    UnlinkWired(x, i, k, m');
    UnlinkDirs(x, i, k, m');
    UnlinkCovered(x, v, i, k, m');
    UnlinkBacked(x, v, i, k, m');
  }

  /** What the invariant says of the parent of a live file or directory. */
  lemma ParentOf(x: Tables, v: View, i: int)
    requires FsValid(x, v) && 0 < i < 128 && x.names[i].avail
    ensures Listed(x, i) && DirStored(x.m, x.up[i], x.up[x.up[i]], x.entries[x.up[i]])
    ensures x.m.inodes[x.up[i]].avail
  {
    hide Contents, Directory, Holds, GoodEntries, GoodPath, Core;
  }
}
