/** The FUSE operations on the tables (asst3/assignment3/src/sfs.c:140-156, 243-268, 504-1008, 1121-1149). */
module FileSystem {
  import opened Blocks
  import opened BlockCount
  import opened FreeCount
  import opened IndexTree
  import opened StoreImage
  import opened FileImage
  import opened BlockStore
  import opened DirText
  import opened Paths
  import opened FsImage
  import opened FsSteps
  import opened DirRemoval
  import FsRuns
  import FreeImage

  const ENOENT := -2
  const EBADF := -9
  const ENOMEM := -12
  const EEXIST := -17
  const EISDIR := -21

  /** file_entry_t */
  datatype FileEntry = FileEntry(refcnt: int, ino: int, pos: int)

  const CLOSED := FileEntry(0, -1, 0)

  /** Every open handle refers to a live file. */
  ghost predicate HandlesLive(open: seq<FileEntry>, inodes: seq<Inode>) {
    && |open| == 128
    && (forall h :: 0 <= h < 128 ==> if open[h].ino >= 0 then open[h] == FileEntry(1, open[h].ino, 0) else open[h] == CLOSED)
    && (forall h :: 0 <= h < 128 && open[h].ino >= 0 ==>
          open[h].ino < |inodes| && inodes[open[h].ino].avail && !inodes[open[h].ino].isDir)
  }

  /** The root directory: the first inode and the first block (sfs.c:405-419, 430-444). */
  method MakeRoot(store: Store, junk: seq<byte>)
    requires |junk| == 503
    requires store.disk.Length == store.used.Length == |store.owner| == NUM_BLOCKS
    requires store.inodes.Length == |store.trees| == 128
    requires forall b :: 0 <= b < NUM_BLOCKS ==> !store.used[b] && store.owner[b] == Nobody
    requires forall i :: 0 <= i < 128 ==> FreeImage.Blank(store.inodes[i]) && store.trees[i] == map[]
    modifies store, store.disk, store.used, store.inodes
    ensures FileImage.Valid(store.M()) && |store.trees| == 128
    ensures forall i :: 0 < i < 128 ==> FreeImage.Blank(store.inodes[i])
    ensures var root := store.inodes[0]; root.avail && root.isDir && root.nlink == 2 && root.size == 9
    ensures Holds(Contents(store.M(), 0), Directory(0, 0, []))
  {
    hide Stored, CountFree, Directory, Contents, Holds;
    assert !store.inodes[0].avail;
    var root := store.GetInode();
    store.inodes[root] := store.inodes[root].(isDir := true, nlink := 2, size := 512, nblocks := 1);
    assert !store.used[0];
    SomeFree(store.used[..]);
    var rootBlock := store.GetBlock();
    ghost var m := store.M();
    BareStructured(m);
    store.SetBlockIndex(root, 0, rootBlock);
    InitValid(m, store.M());
    var text := [46, 47, 48, 47, 46, 46, 47, 48];      // "./0/../0"
    RootText(junk);
    DirWrite(store.M(), 0, text + [0] + junk);
    store.BlockWrite(0, text + [0] + junk);
    Restat(store.M(), 0, 2, 9);
    store.inodes[root] := store.inodes[root].(size := 9);
  }

  class FileSystem {
    const store: Store
    const names: array<Mapping>     // name_table
    const open: array<FileEntry>    // open_files
    ghost var up: seq<int>
    ghost var entries: seq<seq<DirEntry>>
    ghost var view: View            // what the file system stands for

    ghost function Repr(): set<object> {
      {this, store, store.disk, store.used, store.inodes, names, open}
    }

    ghost function T(): Tables
      reads this, store, store.disk, store.used, store.inodes, names, open
    {
      Tables(store.M(), names[..], up, entries)
    }

    ghost predicate Valid()
      reads this, store, store.disk, store.used, store.inodes, names, open
    {
      FsValid(T(), view) && HandlesLive(open[..], store.inodes[..])
    }

    /** sfs_init on a disk without a saved file system (sfs.c:396-446). The last write copies a whole block from a string
        literal, so any bytes, `junk`, follow its terminating zero. */
    constructor Init(contents: seq<Block>, junk: seq<byte>)
      requires |contents| == NUM_BLOCKS && |junk| == 503
      ensures Valid() && fresh(Repr())
      ensures view == View(map[], map[[SLASH] := []])
      ensures forall h :: 0 <= h < 128 ==> open[h].ino < 0
    {
      hide FileImage.Valid, CountFree, Directory, Contents, Lookup, Holds, FsValid;
      store := new Store(contents);
      names := new Mapping[128](i => if i == 0 then Mapping(true, 0, [SLASH]) else Mapping(false, 0, []));
      open := new FileEntry[128](i => CLOSED);
      up := seq(128, i => 0);
      entries := seq(128, i => []);
      view := View(map[], map[[SLASH] := []]);
      new;
      MakeRoot(store, junk);
      FreshFs(T());
    }

    /** path_lookup */
    method PathLookup(path: Text) returns (i: int)
      ensures i == Lookup(names[..], path)
    {
      i := 0;
      while i < names.Length
        invariant 0 <= i <= names.Length
        invariant forall j :: 0 <= j < i ==> names[j].path != path
      {
        if names[i].path == path {
          return;
        }
        i := i + 1;
      }
      i := -1;
    }

    /** get_mapping: the first free slot, or -1. */
    method GetMapping() returns (i: int)
      modifies names
      ensures -1 <= i < names.Length
      ensures forall j :: 0 <= j < (if i < 0 then names.Length else i) ==> old(names[j].avail)
      ensures i < 0 ==> names[..] == old(names[..])
      ensures i >= 0 ==> !old(names[i].avail) && names[..] == old(names[..])[i := old(names[i]).(avail := true)]
    {
      i := 0;
      while i < names.Length
        invariant 0 <= i <= names.Length
        invariant forall j :: 0 <= j < i ==> names[j].avail
        invariant names[..] == old(names[..])
      {
        if !names[i].avail {
          names[i] := names[i].(avail := true);
          return;
        }
        i := i + 1;
      }
      i := -1;
    }

    /** get_fh: the first closed handle, or -1. */
    method GetFh() returns (h: int)
      ensures -1 <= h < open.Length
      ensures h >= 0 ==> open[h].ino < 0 && forall k :: 0 <= k < h ==> open[k].ino >= 0
      ensures h < 0 ==> forall k :: 0 <= k < open.Length ==> open[k].ino >= 0
    {
      h := 0;
      while h < open.Length
        invariant 0 <= h <= open.Length
        invariant forall k :: 0 <= k < h ==> open[k].ino >= 0
      {
        if open[h].ino < 0 {
          return;
        }
        h := h + 1;
      }
      h := -1;
    }

    /** sfs_getattr: by the lockstep of the tables, the inode at the index of the name slot is the inode of the path. */
    method GetAttr(path: Text) returns (ret: int, stat: Inode)
      requires Valid() && path != []
      ensures path !in view.files && path !in view.dirs ==> ret == ENOENT
      ensures path in view.files ==> ret == 0 && !stat.isDir && stat.size == |view.files[path]|
      ensures path in view.dirs ==> ret == 0 && stat.isDir
      ensures ret == 0 ==> 0 <= Lookup(names[..], path) < store.inodes.Length && stat == store.inodes[Lookup(names[..], path)]
      ensures ret != 0 ==> stat == NEW_FILE
    {
      hide Core, Wired, DirsStored, GoodPath, Lookup;
      var i := PathLookup(path);
      FsParts(T(), view);
      if i < 0 {
        return ENOENT, NEW_FILE;
      }
      LookupFound(store.inodes[..], names[..], path);
      ret, stat := 0, store.inodes[i];
    }

    /** sfs_open */
    method Open(path: Text) returns (ret: int)
      requires Valid() && path != []
      modifies open
      ensures Valid() && view == old(view)
      ensures path !in view.files && path !in view.dirs ==> ret == ENOENT
      ensures path in view.dirs ==> ret == EISDIR
      ensures path in view.files && (forall h :: 0 <= h < 128 ==> old(open[h].ino) >= 0) ==> ret == ENOMEM
      ensures path in view.files && (exists h :: 0 <= h < 128 && old(open[h].ino) < 0) ==>
                && 0 <= ret < 128 && OpenOn(ret, path) && old(open[ret]) == CLOSED && open[..] == old(open[..])[ret := open[ret]]
                && (forall h :: 0 <= h < ret ==> old(open[h].ino) >= 0)
      ensures ret < 0 ==> open[..] == old(open[..])
    {
      hide FsValid, HandlesLive, Lookup;
      var i := PathLookup(path);
      PathKind(T(), view, path);
      ClosedHandles(open[..], store.inodes[..]);
      if i < 0 {
        return ENOENT;
      }
      if store.inodes[names[i].ino].isDir {
        return EISDIR;
      }
      var h := GetFh();
      if h < 0 {
        return ENOMEM;
      }
      HandleOpened(open[..], store.inodes[..], h, i);
      open[h] := FileEntry(1, names[i].ino, 0);
      ret := h;
    }

    /** Handle h is open on the file with this path. */
    ghost predicate OpenOn(h: int, path: Text)
      reads this, store, store.disk, store.used, store.inodes, names, open
    {
      && 0 <= h < open.Length
      && 0 <= open[h].ino < names.Length
      && names[open[h].ino].path == path
      && path in view.files
    }

    /** sfs_release */
    method Release(h: int)
      requires Valid() && 0 <= h < 128
      modifies open
      ensures Valid() && view == old(view)
      ensures !IsOpen(h) && open[..] == old(open[..])[h := CLOSED]
    {
      hide FsValid;
      open[h] := CLOSED;
    }

    /** The path a handle is open on; no path if it is closed or out of range. */
    ghost predicate IsOpen(h: int)
      reads this, store, store.disk, store.used, store.inodes, names, open
    {
      0 <= h < open.Length && open[h].ino >= 0
    }

    ghost function PathOf(h: int): Text
      reads this, store, store.disk, store.used, store.inodes, names, open
    {
      if IsOpen(h) && open[h].ino < names.Length then names[open[h].ino].path else []
    }

    /** The contents of the file a handle is open on. */
    ghost function FileAt(h: int): seq<byte>
      reads this, store, store.disk, store.used, store.inodes, names, open
    {
      if PathOf(h) in view.files then view.files[PathOf(h)] else []
    }

    /** sfs_read: the bytes [offset, offset + size) of the file, cut at its end. */
    method Read(h: int, size: int, offset: int) returns (ret: int, data: seq<byte>)
      requires Valid() && 0 <= h
      requires 0 <= offset < 0x8000_0000_0000_0000 && 0 <= size && offset + size < 0x1_0000_0000_0000_0000
      ensures !IsOpen(h) ==> ret == EBADF
      ensures IsOpen(h) ==> PathOf(h) in view.files
      ensures IsOpen(h) && offset >= |FileAt(h)| ==> ret == -1
      ensures IsOpen(h) && offset < |FileAt(h)| ==> ret == |data| && data == Window(FileAt(h), offset, size)
    {
      hide Core, Wired, DirsStored, Backed, Lockstep, Contents;
      FsParts(T(), view);
      if h > 127 || open[h].ino < 0 {
        return EBADF, [];
      }
      ret, data := store.Read(open[h].ino, size, offset);
    }

    /** sfs_write at or beyond the end of the file: beyond it writes nothing, at the end it appends. */
    method Write(h: int, data: seq<byte>, offset: int) returns (ret: int)
      requires Valid() && 0 <= h
      requires IsOpen(h) ==>
        var f := store.inodes[open[h].ino];
        && f.size <= offset
        && (f.size == offset ==>
              && |data| > 0 && offset + |data| <= 1110 * 512
              && CountFree(store.used[..]) >= Cost(f.nblocks, Max(f.nblocks, BlocksFor(offset + |data|))))
      modifies this, store, store.disk, store.used, store.inodes
      ensures Valid() && IsOpen(h) == old(IsOpen(h)) && PathOf(h) == old(PathOf(h))
      ensures !IsOpen(h) ==> ret == EBADF && view == old(view)
      ensures IsOpen(h) ==> PathOf(h) in old(view).files
      ensures IsOpen(h) && offset > |old(FileAt(h))| ==> ret == 0 && view == old(view)
      ensures IsOpen(h) && offset == |old(FileAt(h))| ==>
                ret == |data| && FsRuns.Takes(old(view), FsRuns.Append(PathOf(h), data), view)
    {
      hide Core, Wired, DirsStored, Backed, Contents, Written, AllStored, CountFree, Cost;
      FsParts(T(), view);
      if h > 127 || open[h].ino < 0 {
        return EBADF;
      }
      var f := open[h].ino;
      ghost var x := T();
      ret := store.Write(f, data, offset);
      if offset <= x.m.inodes[f].size {
        AppendContents(x.m, f, data, store.M());
        WrittenKinds(x.m, f, offset, data, store.M());
        AppendFs(x, view, f, data, store.M());
        view := view.(files := view.files[x.names[f].path := view.files[x.names[f].path] + data]);
      }
    }

    // ------------------------------------------------------------------ directories

    /** The C string in directory d, and the block that holds it (sfs.c:597-607). */
    method ReadText(d: int, ghost t: Text) returns (b: int, buf: Block, len: int)
      requires FileImage.Valid(store.M()) && 0 <= d < 128 && store.inodes[d].avail && store.inodes[d].isDir
      requires Holds(Contents(store.M(), d), t) && 0 !in t
      ensures Data(0) in store.trees[d] && b == store.trees[d][Data(0)] && 0 <= b < NUM_BLOCKS
      ensures len == |t| && buf == Contents(store.M(), d)
    {
      hide Core, Contents;
      CoreShape(store.M());
      CoreParts(store.M(), d);
      DirBlock(store.M(), d);
      b := store.GetBlockIndex(d, 0);
      buf := store.BlockRead(b);
      assert forall j :: 0 <= j < |t| ==> buf[..|t|][j] == t[j] && t[j] != 0;
      len := 0;
      while buf[len] != 0
        invariant 0 <= len <= |t|
        decreases |t| - len
      {
        len := len + 1;
      }
    }

    /** Rewrite the text of directory d and set its link count and size. */
    method SetText(d: int, b: int, buf: Block, ghost t: Text, n: int, z: int)
      requires FileImage.Valid(store.M()) && 0 <= d < 128 && store.inodes[d].avail && store.inodes[d].isDir
      requires Data(0) in store.trees[d] && b == store.trees[d][Data(0)] && 0 <= b < NUM_BLOCKS
      requires Holds(buf, t)
      modifies store.disk, store.inodes
      ensures Rewritten(old(store.M()), d, t, n, z, store.M())
    {
      hide FileImage.Valid, Contents, Holds, Rewritten;
      ValidShape(store.M());
      RewriteDone(store.M(), d, buf, t, n, z);
      store.BlockWrite(b, buf);
      store.inodes[d] := store.inodes[d].(nlink := n, size := z);
    }

    /** Enter "/name/ino" at the end of directory d (sfs.c:593-632, 966-1005). Where its st_size counts a second block, lines
        625-629 and 998-1002 would take one. */
    method AddItem(d: int, e: DirEntry, ghost t: Text)
      requires FileImage.Valid(store.M()) && 0 <= d < 128 && store.inodes[d].avail && store.inodes[d].isDir
      requires Holds(Contents(store.M(), d), t) && 0 !in t && |t| + |Item(e)| < 512
      requires Rem(store.inodes[d].size) + |Item(e)| + 1 <= 512
      modifies store.disk, store.inodes
      ensures var s := old(store.inodes[d]);
              Rewritten(old(store.M()), d, t + Item(e), s.nlink + 1, s.size + |Item(e)| + 1, store.M())
    {
      hide FileImage.Valid, Contents, Rewritten, Item;
      ValidShape(store.M());
      var b, buf, len := ReadText(d, t);
      var item := Item(e);
      var after := buf[len + |item| + 1..];
      assert buf[..len] + item + [0] + after == t + item + [0] + after;
      BufferHolds(t + item, after);
      SetText(d, b, buf[..len] + item + [0] + after, t + item,
              store.inodes[d].nlink + 1, store.inodes[d].size + |item| + 1);
    }

    /** Where a new node goes: its parent directory and the text that directory holds. */
    lemma ParentText(path: Text) returns (d: int)
      requires Valid() && GoodPath(path) && Shaped(T()) && Room(T(), path)
      ensures d == Lookup(names[..], DirOf(path)) && 0 <= d < 128 && names[d].avail && names[d].path == DirOf(path)
      ensures store.inodes[d].avail && store.inodes[d].isDir
      ensures DirStored(store.M(), d, up[d], entries[d]) && 0 !in Directory(d, up[d], entries[d])
      ensures SLASH in path && DirOf(path) != path && DirOf(path) != []
    {
      hide Core, Contents, Directory, Lookup, GoodEntries, Wired, Abstracts, Holds;
      PathParts(path);
      d := Lookup(names[..], DirOf(path));
      LookupFound(store.inodes[..], names[..], DirOf(path));
      GoodWords(entries[d]);
      DirectoryNoZero(d, up[d], entries[d]);
    }

    /** Enter a new inode in the name table and look up its parent (sfs.c:576-591, 944-958). By the lockstep of the
        tables there is a free slot, and it is the one at the index of the inode. */
    method EnterName(inode: int, path: Text, ghost inodes: seq<Inode>) returns (parent: int)
      requires Lockstep(inodes, names[..]) && FirstFree(names[..], inode)
      requires SLASH in path && DirOf(path) != path && DirOf(path) != [] && Lookup(names[..], DirOf(path)) >= 0
      modifies names
      ensures names[..] == old(names[..])[inode := Mapping(true, inode, path)]
      ensures parent == old(Lookup(names[..], DirOf(path)))
    {
      hide Lookup, DirOf;
      ghost var before := names[..];
      var mapping := GetMapping();
      assert mapping == inode;
      names[mapping] := Mapping(true, inode, path);
      assert names[..] == before[inode := Mapping(true, inode, path)];
      var _, dir := GetCwdPath(path, []);
      LookupOther(inodes, before, inode, path, dir);
      LookupFound(inodes, before, dir);
      var at := PathLookup(dir);
      parent := names[at].ino;
    }

    /** sfs_create */
    method Create(path: Text) returns (ret: int, fh: int)
      requires Valid() && GoodPath(path)
      requires Shaped(T())
      requires path !in view.files && path !in view.dirs ==> Room(T(), path) && exists h :: 0 <= h < 128 && open[h].ino < 0
      modifies this, store, store.disk, store.used, store.inodes, names, open
      ensures Valid()
      ensures path in old(view).files || path in old(view).dirs ==> ret == EEXIST && view == old(view) && open[..] == old(open[..])
      ensures path !in old(view).files && path !in old(view).dirs ==>
                && ret == 0 && FsRuns.Takes(old(view), FsRuns.Create(path), view)
                && OpenOn(fh, path) && old(open[fh]) == CLOSED && open[..] == old(open[..])[fh := open[fh]]
      ensures ret == 0 ==>
                && 0 <= fh < 128 && (forall h :: 0 <= h < fh ==> old(open[h].ino) >= 0)
                && DirGains(old(store.M()), store.M(), old(Lookup(names[..], DirOf(path))), LeafOf(path), open[fh].ino)
    {
      hide FsValid, HandlesLive, Room, Lookup, GoodPath, DirOf, LeafOf, DirGains, NewDirectoryOf;
      var at := PathLookup(path);
      PresentIff(T(), view, path);
      if at > 0 {
        return EEXIST, -1;
      }
      ClosedHandles(open[..], store.inodes[..]);
      fh := GetFh();
      ret := 0;
      var inode := CreateNode(path);
      FsLock(T(), view);
      HandleOpened(open[..], store.inodes[..], fh, inode);
      open[fh] := FileEntry(1, inode, 0);
    }

    /** The table and directory part of sfs_create: a new empty file, listed last in its parent. */
    method CreateNode(path: Text) returns (inode: int)
      requires Valid() && GoodPath(path) && Shaped(T()) && Room(T(), path) && Lookup(names[..], path) < 0
      modifies this, store, store.disk, store.used, store.inodes, names
      ensures Valid() && DirOf(path) in old(view).dirs && view == WithNode(old(view), path, false)
      ensures DirGains(old(store.M()), store.M(), old(Lookup(names[..], DirOf(path))), LeafOf(path), inode)
      ensures 0 < inode < 128 && names[inode].path == path && store.inodes[inode].avail && !store.inodes[inode].isDir
    {
      hide FsValid, HandlesLive, FileImage.Valid, Room, Contents, Directory, Lookup, GoodEntries, Holds, GoodPath, DirOf, LeafOf, Item,
           Rewritten, Fresh, WithNode, Lockstep, DirStored, DirGains, NewDirectoryOf;
      ghost var x, v := T(), view;
      ghost var d := ParentText(path);
      FsLock(x, v);
      HasSlot(x, path);
      inode := NewFileInode(x.m);
      FreeSlot(x, path, inode);
      ghost var m1 := store.M();
      FreshParent(x.m, inode, m1, d);
      var parent := EnterName(inode, path, x.m.inodes);
      var _, leaf := GetName(path, []);
      StoredText(x.m, d, x.up[d], x.entries[d]);
      FreshShape(x.m, inode, m1);
      AddItem(parent, DirEntry(leaf, inode), Directory(d, up[d], entries[d]));
      RecordNode(x, inode, d, path, false, m1);
      HandlesKept(open[..], x.m.inodes, store.inodes[..], inode);
    }

    /** Note in the ghost view that the node at path is now listed in directory d; m1 is the image in which its inode
        was complete but its parent not yet rewritten. */
    ghost method RecordNode(x: Tables, i: int, d: int, path: Text, isDir: bool, m1: Image)
      requires FsValid(x, view) && NodeMade(x, i, d, path, isDir, m1, store.M())
      requires T() == x.(m := store.M(), names := x.names[i := Mapping(true, i, path)])
      modifies this
      ensures FsValid(T(), view) && DirOf(path) in old(view).dirs && view == WithNode(old(view), path, isDir)
      ensures DirGains(x.m, store.M(), d, LeafOf(path), i) && (isDir ==> NewDirectoryOf(store.M(), i, d))
      ensures |store.inodes[..]| == 128 && store.inodes[i].avail && store.inodes[i].isDir == isDir
      ensures forall g :: 0 <= g < 128 && g != i ==>
                store.inodes[g].avail == x.m.inodes[g].avail && store.inodes[g].isDir == x.m.inodes[g].isDir
    {
      hide FsValid, Contents, Directory, Lookup, Holds, GoodPath, DirOf, LeafOf, WithNode, NodeMade, DirGains, NewDirectoryOf;
      NodeParts(x, i, d, path, isDir, m1, store.M());
      LinkSteps(x, view, i, d, path, isDir, m1, store.M());
      LinkFs(x, view, i, d, path, isDir, store.M());
      LinkGains(x, view, i, d, path, isDir, store.M());
      up := up[i := d];
      entries := entries[d := entries[d] + [DirEntry(LeafOf(path), i)]][i := []];
      view := WithNode(view, path, isDir);
    }

    /** sfs_mkdir */
    method Mkdir(path: Text) returns (ret: int)
      requires Valid() && GoodPath(path)
      requires Shaped(T())
      requires path !in view.files && path !in view.dirs ==> Room(T(), path) && CountFree(store.used[..]) > 0
      modifies this, store, store.disk, store.used, store.inodes, names
      ensures Valid()
      ensures path in old(view).files || path in old(view).dirs ==> ret == EEXIST && view == old(view)
      ensures path !in old(view).files && path !in old(view).dirs ==>
                ret == 0 && FsRuns.Takes(old(view), FsRuns.Mkdir(path), view)
      ensures ret == 0 ==>
                var d, i := old(Lookup(names[..], DirOf(path))), Lookup(names[..], path);
                DirGains(old(store.M()), store.M(), d, LeafOf(path), i) && NewDirectoryOf(store.M(), i, d)
    {
      hide FsValid, HandlesLive, FileImage.Valid, Room, Contents, Directory, Lookup, GoodEntries, Holds, GoodPath, DirOf, LeafOf, Item,
           Rewritten, Fresh, WithNode, Lockstep, DirStored, CountFree, DirGains, NewDirectoryOf;
      ghost var x, v := T(), view;
      var at := PathLookup(path);
      PresentIff(x, v, path);
      if at > 0 {
        return EEXIST;
      }
      ghost var d := ParentText(path);
      FsLock(x, v);
      HasSlot(x, path);
      var inode := NewDirectory(x.m);
      FreeSlot(x, path, inode);
      ghost var m0 := store.M();
      var parent := EnterName(inode, path, x.m.inodes);
      WriteDots(inode, parent, x.m);
      ghost var m1 := store.M();
      FreshParent(x.m, inode, m1, d);
      var _, leaf := GetName(path, []);
      StoredText(x.m, d, x.up[d], x.entries[d]);
      FreshShape(x.m, inode, m1);
      AddItem(parent, DirEntry(leaf, inode), Directory(d, up[d], entries[d]));
      RecordNode(x, inode, d, path, true, m1);
      HandlesKept(open[..], x.m.inodes, store.inodes[..], inode);
      FsLock(T(), view);
      LookupLive(store.inodes[..], names[..], inode);
      ret := 0;
    }

    /** The inode part of sfs_create (sfs.c:559-574). */
    method NewFileInode(ghost m: Image) returns (inode: int)
      requires m == store.M() && FileImage.Valid(m)
      requires exists i :: 0 <= i < 128 && !store.inodes[i].avail
      modifies store.inodes
      ensures 0 < inode < 128 && !m.inodes[inode].avail && (forall j :: 0 <= j < inode ==> m.inodes[j].avail)
      ensures Fresh(m, inode, store.M())
      ensures store.inodes[inode].avail && !store.inodes[inode].isDir && NewStat(store.inodes[inode])
      ensures Contents(store.M(), inode) == []
    {
      hide CountFree, Contents, Structured, Dense;
      ValidShape(m);
      inode := store.GetInode();
      assert store.inodes[inode].blocks == UNMAPPED;
      store.inodes[inode] := store.inodes[inode].(isDir := false, nlink := 1, size := 0, nblocks := 0);
      NewFile(m, inode);
      assert store.M() == m.(inodes := m.inodes[inode := NEW_FILE]);
    }

    /** The inode part of sfs_mkdir (sfs.c:929-942). */
    method NewDirectory(ghost m: Image) returns (inode: int)
      requires m == store.M() && FileImage.Valid(m) && CountFree(store.used[..]) > 0
      requires exists i :: 0 <= i < 128 && !store.inodes[i].avail
      modifies store, store.used, store.inodes
      ensures 0 < inode < 128 && !m.inodes[inode].avail && (forall j :: 0 <= j < inode ==> m.inodes[j].avail)
      ensures Fresh(m, inode, store.M())
      ensures store.inodes[inode].avail && store.inodes[inode].isDir && NewStat(store.inodes[inode])
    {
      hide CountFree, Contents, AllStored, Exact, Dense;
      ValidShape(m);
      inode := store.GetInode();
      assert store.inodes[inode].blocks == UNMAPPED;
      ghost var before := store.inodes[..];
      var b := store.GetBlock();
      NewDir(m, inode, b, m.(used := store.used[..], owner := store.owner));
      store.inodes[inode] := store.inodes[inode].(isDir := true, nlink := 2, size := 512, nblocks := 1,
                                                  blocks := store.inodes[inode].blocks[0 := b]);
      store.trees := store.trees[inode := map[Data(0) := b]];
      store.owner := store.owner[b := Owned(inode, Data(0))];
      assert store.inodes[..] == m.inodes[inode := Inode(true, true, 2, 512, 1, UNMAPPED[0 := b])];
    }

    /** sfs_unlink on a file, or on a path that does not exist. */
    method Unlink(path: Text) returns (ret: int)
      requires Valid() && GoodPath(path) && path !in view.dirs
      requires Shaped(T()) && Removable(T(), path)
      requires forall h :: IsOpen(h) ==> PathOf(h) != path
      modifies this, store, store.disk, store.used, store.inodes, names
      ensures Valid()
      ensures path !in old(view).files ==> ret == ENOENT && view == old(view)
      ensures path in old(view).files ==>
                ret == 0 && FsRuns.Takes(old(view), FsRuns.Unlink(path), view)
      ensures ret == 0 ==>
                DirLoses(old(store.M()), store.M(), old(Lookup(names[..], DirOf(path))), LeafOf(path), old(Lookup(names[..], path)))
    {
      hide FsValid, HandlesLive, FileImage.Valid, Contents, Directory, Lookup, Holds, GoodPath, DirOf, LeafOf, WithoutNode, DirStored,
           Listed, Erasable, DirLoses;
      ghost var inodes := store.inodes[..];
      ClosedHandles(open[..], inodes);
      var mapping := PathLookup(path);
      PresentIff(T(), view, path);
      if mapping < 0 {
        return ENOENT;
      }
      FileParts(T(), view, path, mapping);
      PathParts(path);
      var _, leaf := GetName(path, []);
      var _, dir := GetCwdPath(path, []);
      var at := PathLookup(dir);
      forall h | 0 <= h < 128 && open[h].ino >= 0
        ensures open[h].ino != mapping
      {
        assert IsOpen(h);
      }
      DropFile(names[mapping].ino, names[at].ino, leaf);
      HandlesDropped(open[..], inodes, store.inodes[..], mapping);
      ret := 0;
    }

    /** The updates of sfs_unlink: the entry leaves the parent, then inode and name slot are freed (sfs.c:657-690). */
    method DropFile(i: int, d: int, leaf: Text)
      requires FsValid(T(), view) && Shaped(T()) && 0 < i < 128 && 0 <= d < 128 && leaf == LeafOf(names[i].path)
      requires names[i].avail && store.inodes[i].avail && !store.inodes[i].isDir && store.inodes[i].nlink == 1
      requires d == up[i] && store.inodes[d].avail && store.inodes[d].isDir
      requires Listed(T(), i) && DirStored(store.M(), d, up[d], entries[d])
      requires Erasable(store.inodes[d].size, d, up[d], entries[d], DirEntry(leaf, i))
      modifies this, store, store.disk, store.used, store.inodes, names
      ensures var path := old(names[i].path);
              FsValid(T(), view) && DirOf(path) in old(view).dirs && view == WithoutNode(old(view), path)
      ensures Shaped(T()) && forall g :: 0 <= g < 128 && g != i ==>
                store.inodes[g].avail == old(store.inodes[g].avail) && store.inodes[g].isDir == old(store.inodes[g].isDir)
      ensures DirLoses(old(store.M()), store.M(), d, leaf, i)
    {
      hide FsValid, FileImage.Valid, Contents, Directory, Holds, DirOf, LeafOf, WithoutNode, Without, Unlinks,
           FreeImage.Unlinked, GoodEntries, GoodPath, Rewritten, OthersSame, Core, Erasable, Quot, DirLoses;
      ghost var x := T();
      FsImageValid(x, view);
      ghost var k := RemoveItem(d, DirEntry(leaf, i), up[d], entries[d]);
      ghost var m1 := store.M();
      RewrittenOther(x.m, d, Directory(d, up[d], Without(entries[d], k)), x.m.inodes[d].nlink - 1,
                     x.m.inodes[d].size - Spare(d, up[d], Without(entries[d], k)), m1, i);
      store.FreeInode(i);
      FreedOthers(m1, i, store.M());
      names[i] := Mapping(false, -1, []);      // free_mapping
      UnlinkSteps(x, view, i, k, m1, store.M());
      RecordUnlink(x, i, k);
    }

    /** Note in the ghost view that file i, entry k of its parent, is gone. */
    ghost method RecordUnlink(x: Tables, i: int, k: int)
      requires FsValid(x, view) && Shaped(x) && Unlinks(x, i, k, store.M()) && FileImage.Valid(store.M())
      requires T() == x.(m := store.M(), names := x.names[i := Mapping(false, -1, [])])
      modifies this
      ensures var path := x.names[i].path;
              FsValid(T(), view) && DirOf(path) in old(view).dirs && view == WithoutNode(old(view), path)
      ensures Shaped(T()) && forall g :: 0 <= g < 128 && g != i ==>
                store.inodes[g].avail == x.m.inodes[g].avail && store.inodes[g].isDir == x.m.inodes[g].isDir
      ensures DirLoses(x.m, store.M(), x.up[i], LeafOf(x.names[i].path), i)
    {
      hide FsValid, FileImage.Valid, Contents, Directory, Holds, DirOf, LeafOf, WithoutNode, Without, DirLoses;
      UnlinkFs(x, view, i, k, store.M());
      UnlinkLoses(x, view, i, k, store.M());
      var at := up[i];
      entries := entries[at := Without(entries[at], k)];
      view := WithoutNode(view, x.names[i].path);
    }

    /** Take "/name/ino" out of directory d (sfs.c:657-678, 686). */
    method RemoveItem(d: int, e: DirEntry, ghost parent: int, ghost es: seq<DirEntry>) returns (ghost k: int)
      requires FileImage.Valid(store.M()) && 0 <= d < 128 && store.inodes[d].avail && store.inodes[d].isDir
      requires DirStored(store.M(), d, parent, es) && e in es && Erasable(store.inodes[d].size, d, parent, es, e)
      modifies store.disk, store.inodes
      ensures 0 <= k < |es| && es[k] == e
      ensures var z := old(store.inodes[d].size); Quot(z) <= Quot(z - Spare(d, parent, Without(es, k)))
      ensures var s, rest := old(store.inodes[d]), Without(es, k);
              Rewritten(old(store.M()), d, Directory(d, parent, rest), s.nlink - 1, s.size - Spare(d, parent, rest), store.M())
    {
      hide FileImage.Valid, Contents, Rewritten, Item, Directory, Removed, GoodEntries, Erasable, Clear, Quot;
      ValidShape(store.M());
      k :| 0 <= k < |es| && es[k] == e;
      ErasableAt(store.inodes[d].size, d, parent, es, k);
      GoodWords(es);
      DirectoryNoZero(d, parent, es);
      var b, buf, len := ReadText(d, Directory(d, parent, es));
      ItemNotEmpty(e);
      var text := RemoveSubstring(buf[..len], Item(e));
      RemoveEntry(d, parent, es, k);
      RemovedLength(buf[..len], Item(e), 0);
      var after: seq<byte> := seq(511 - |text|, i => 0);
      BufferHolds(text, after);
      SetText(d, b, text + [0] + after, text, store.inodes[d].nlink - 1, store.inodes[d].size - (512 - |text|));
    }

    /** sfs_readdir: ".", ".." and the names in the order of creation. */
    method ReadDir(path: Text) returns (ret: int, listing: seq<Text>)
      requires Valid() && path != [] && path !in view.files
      requires Shaped(T()) && var i := Lookup(names[..], path); i >= 0 ==> store.inodes[i].size != 0
      ensures path !in view.dirs ==> ret == ENOENT
      ensures path in view.dirs ==> ret == 0 && listing == [[DOT], [DOT, DOT]] + view.dirs[path]
    {
      hide Core, Contents, Directory, Lookup, Wired, Names, Holds, Tokens, Alternate, Decimal;
      var i := PathLookup(path);
      FsParts(T(), view);
      if i < 0 {
        return ENOENT, [];
      }
      LookupFound(store.inodes[..], names[..], path);
      var d := names[i].ino;
      assert DirStored(store.M(), d, up[d], entries[d]);
      DirectoryNoZero(d, up[d], entries[d]);
      var b, buf, len := ReadText(d, Directory(d, up[d], entries[d]));
      HeldText(buf, Directory(d, up[d], entries[d]));
      listing := ReadNames(buf[..len]);
      ReaddirRoundTrip(d, up[d], entries[d]);
      ret := 0;
    }

    /** Write "./self/../parent" into a new directory (sfs.c:960-964). */
    method WriteDots(inode: int, parent: int, ghost m: Image)
      requires Shape(m) && 0 < inode < 128 && 0 <= parent < 128 && Fresh(m, inode, store.M())
      requires store.inodes.Length == 128 && store.inodes[inode].avail && store.inodes[inode].isDir && NewStat(store.inodes[inode])
      modifies store.disk
      ensures Fresh(m, inode, store.M()) && store.inodes[..] == old(store.inodes[..])
      ensures Holds(Contents(store.M(), inode), Directory(inode, parent, []))
    {
      hide Core, Contents, Directory, Holds;
      ghost var m1 := store.M();
      CoreShape(m1);
      CoreParts(m1, inode);
      NewDirectoryFits(inode, parent);
      var text := Directory(inode, parent, []);
      var after: seq<byte> := seq(511 - |text|, i => 0);
      BufferHolds(text, after);
      DirWrite(m1, inode, text + [0] + after);
      var b := store.GetBlockIndex(inode, 0);
      store.BlockWrite(b, text + [0] + after);
    }
  }

  /** The one place where the text of directory d reads like entry e is that entry, and its st_size neither counts no block
      (sfs.c:665) nor one block less after the removal (sfs.c:681). */
  predicate Erasable(size: int, d: int, parent: int, es: seq<DirEntry>, e: DirEntry) {
    && 0 <= d && 0 <= parent && size != 0
    && (forall k :: 0 <= k < |es| && es[k] == e ==>
          Clear(d, parent, es, k) && Quot(size) <= Quot(size - Spare(d, parent, Without(es, k))))
  }

  lemma ErasableAt(size: int, d: int, parent: int, es: seq<DirEntry>, k: int)
    requires 0 <= k < |es| && Erasable(size, d, parent, es, es[k])
    ensures 0 <= d && 0 <= parent && Clear(d, parent, es, k)
    ensures Quot(size) <= Quot(size - Spare(d, parent, Without(es, k)))
  {
  }

  /** The directory of this path can do without it. */
  ghost predicate Removable(x: Tables, path: Text)
    requires Shaped(x)
  {
    var i := Lookup(x.names, path);
    i >= 0 && 0 <= x.up[i] < 128 ==>
      var d := x.up[i]; Erasable(x.m.inodes[d].size, d, x.up[d], x.entries[d], DirEntry(LeafOf(path), i))
  }

  lemma ClosedHandles(open: seq<FileEntry>, inodes: seq<Inode>)
    requires HandlesLive(open, inodes)
    ensures |open| == 128 && forall h :: 0 <= h < 128 && open[h].ino < 0 ==> open[h] == CLOSED
  {
  }

  lemma HandleOpened(open: seq<FileEntry>, inodes: seq<Inode>, h: int, i: int)
    requires HandlesLive(open, inodes) && 0 <= h < |open| && 0 <= i < |inodes| && inodes[i].avail && !inodes[i].isDir
    ensures HandlesLive(open[h := FileEntry(1, i, 0)], inodes)
  {
  }

  /** A file that no handle is open on can go. */
  lemma HandlesDropped(open: seq<FileEntry>, inodes: seq<Inode>, inodes': seq<Inode>, i: int)
    requires HandlesLive(open, inodes) && |inodes| == |inodes'| == 128 && 0 <= i < 128
    requires forall h :: 0 <= h < |open| && open[h].ino >= 0 ==> open[h].ino != i
    requires forall g :: 0 <= g < 128 && g != i ==> inodes'[g].avail == inodes[g].avail && inodes'[g].isDir == inodes[g].isDir
    ensures HandlesLive(open, inodes')
  {
  }

  /** The lookup of a path and the kind of its inode say what the path stands for. */
  lemma PathKind(x: Tables, v: View, path: Text)
    requires FsValid(x, v) && path != []
    ensures Shaped(x) && |x.names| == 128
    ensures var i := Lookup(x.names, path);
            && (i < 0 ==> path !in v.files && path !in v.dirs)
            && (i >= 0 ==> x.names[i].ino == i && x.m.inodes[i].avail && x.names[i].path == path
                           && (path in v.files <==> !x.m.inodes[i].isDir) && (path in v.dirs <==> x.m.inodes[i].isDir))
  {
    hide Core, Contents, Lookup, Wired, DirsStored, Tallied, Names;
    if Lookup(x.names, path) >= 0 {
      LookupFound(x.m.inodes, x.names, path);
    }
  }

  lemma FsLock(x: Tables, v: View)
    requires FsValid(x, v)
    ensures Shaped(x) && Shape(x.m) && FileImage.Valid(x.m) && Lockstep(x.m.inodes, x.names) && |x.names| == 128
    ensures forall i :: 0 <= i < 128 ==> x.names[i].avail == x.m.inodes[i].avail
  {
  }

  lemma HasSlot(x: Tables, path: Text)
    requires Shaped(x) && Room(x, path)
    ensures exists i :: 0 <= i < 128 && !x.names[i].avail
  {
    hide Directory, Item, DirOf, LeafOf, Lookup, Rem;
  }

  /** What Room says of the first free slot. */
  lemma FreeSlot(x: Tables, path: Text, i: int)
    requires Shaped(x) && Room(x, path) && 0 <= i < 128 && !x.names[i].avail && forall j :: 0 <= j < i ==> x.names[j].avail
    ensures FirstFree(x.names, i)
    ensures var d, e := Lookup(x.names, DirOf(path)), DirEntry(LeafOf(path), i);
            && 0 <= d < 128 && 0 <= x.up[d] && x.m.inodes[d].isDir
            && |Directory(d, x.up[d], x.entries[d])| + |Item(e)| < 512
            && Rem(x.m.inodes[d].size) + |Item(e)| + 1 <= 512 && x.m.inodes[d].size + |Item(e)| + 1 < 0x8000_0000
  {
    hide Directory, Item, DirOf, LeafOf, Lookup, Rem;
  }

  lemma StoredText(m: Image, d: int, up: int, es: seq<DirEntry>)
    requires 0 <= d < |m.inodes| && |m.inodes| == |m.trees| && DirStored(m, d, up, es)
    ensures 0 <= up && GoodEntries(es) && Holds(Contents(m, d), Directory(d, up, es))
  {
  }

  lemma FreshShape(m: Image, i: int, m1: Image)
    requires Shape(m) && 0 <= i < 128 && Fresh(m, i, m1)
    ensures FileImage.Valid(m1) && Shape(m1) && m1.inodes == m.inodes[i := m1.inodes[i]]
  {
    hide Core;
    CoreShape(m1);
  }

  /** A node that was free has no open handle, and the others are as they were. */
  lemma HandlesKept(open: seq<FileEntry>, inodes: seq<Inode>, inodes': seq<Inode>, i: int)
    requires HandlesLive(open, inodes) && |inodes| == |inodes'| == 128 && 0 <= i < 128 && !inodes[i].avail
    requires forall g :: 0 <= g < 128 && g != i ==> inodes'[g].avail == inodes[g].avail && inodes'[g].isDir == inodes[g].isDir
    ensures HandlesLive(open, inodes')
  {
  }

  lemma NodeParts(x: Tables, i: int, d: int, path: Text, isDir: bool, m1: Image, m2: Image)
    requires NodeMade(x, i, d, path, isDir, m1, m2)
    ensures Shaped(x) && 0 < i < 128 && 0 <= d < 128
  {
  }

  /** Rewriting directory d leaves inode i alone. */
  lemma RewrittenOther(m: Image, d: int, text: Text, n: int, z: int, m1: Image, i: int)
    requires Shape(m) && 0 <= d < 128 && Rewritten(m, d, text, n, z, m1) && 0 <= i < 128 && i != d
    ensures FileImage.Valid(m1) && Core(m1) && Shape(m1) && m1.inodes[i] == m.inodes[i]
  {
    hide Contents, Core;
    CoreShape(m1);
  }

  lemma FsImageValid(x: Tables, v: View)
    requires FsValid(x, v)
    ensures FileImage.Valid(x.m) && Core(x.m) && Shape(x.m)
  {
  }

  lemma HeldText(buf: seq<byte>, t: Text)
    requires Holds(buf, t)
    ensures |t| < |buf| && buf[..|t|] == t
  {
  }

  /** What sfs_unlink finds in the tables for the path of a file. */
  lemma FileParts(x: Tables, v: View, path: Text, i: int)
    requires FsValid(x, v) && GoodPath(path) && path !in v.dirs && i == Lookup(x.names, path) && i > 0
    ensures x.names[i].avail && x.names[i].ino == i && x.m.inodes[i].avail && !x.m.inodes[i].isDir && x.m.inodes[i].nlink == 1
    ensures Shaped(x) && Listed(x, i) && x.names[i].path == path
    ensures var d := x.up[i];
            && 0 <= d < 128 && x.m.inodes[d].avail && x.m.inodes[d].isDir && x.names[d].ino == d
            && Lookup(x.names, DirOf(path)) == d && DirStored(x.m, d, x.up[d], x.entries[d])
  {
    hide Core, Contents, Lookup, Directory, Names, GoodEntries, Holds, GoodPath, DirOf, LeafOf;
    PathParts(path);
    LookupFound(x.m.inodes, x.names, path);
    ParentOf(x, v, i);
    LookupLive(x.m.inodes, x.names, x.up[i]);
  }

  /** The parent of a new directory is as it was before. */
  lemma FreshParent(m: Image, i: int, m1: Image, d: int)
    requires Shape(m) && 0 <= i < 128 && Fresh(m, i, m1) && 0 <= d < 128 && d != i && m.inodes[d].avail
    ensures FileImage.Valid(m1) && Shape(m1) && m1.inodes[d] == m.inodes[d] && Contents(m1, d) == Contents(m, d)
  {
    hide Contents, Core;
    CoreShape(m1);
  }

  /** A path is taken exactly if the lookup finds it, and then not in slot 0, which is the root. */
  lemma PresentIff(x: Tables, v: View, path: Text)
    requires FsValid(x, v) && GoodPath(path)
    ensures path in v.files || path in v.dirs <==> Lookup(x.names, path) > 0
    ensures Lookup(x.names, path) != 0
  {
    hide Core, Contents, Lookup, Wired, DirsStored, Names;
    if Lookup(x.names, path) >= 0 {
      LookupFound(x.m.inodes, x.names, path);
    }
  }

  lemma ValidShape(m: Image)
    requires FileImage.Valid(m)
    ensures Shape(m)
  {
  }

  lemma WrittenKinds(m: Image, f: int, offset: int, data: seq<byte>, m': Image)
    requires Shape(m) && 0 <= f < 128 && 0 <= offset && Written(m, f, offset, data, m')
    ensures Extended(m.inodes, f, m'.inodes)
  {
    hide ByteAfter, ByteAt, CountFree;
  }

  lemma FsParts(x: Tables, v: View)
    requires FsValid(x, v)
    ensures Shape(x.m)
    ensures forall i :: 0 <= i < 128 && x.m.inodes[i].avail && !x.m.inodes[i].isDir ==>
              0 <= x.m.inodes[i].size && |Contents(x.m, i)| == x.m.inodes[i].size
  {
    CoreShape(x.m);
  }

  lemma RootText(junk: seq<byte>)
    requires |junk| == 503
    ensures Holds([46, 47, 48, 47, 46, 46, 47, 48, 0] + junk, Directory(0, 0, []))
    ensures [46, 47, 48, 47, 46, 46, 47, 48] + [0] + junk == [46, 47, 48, 47, 46, 46, 47, 48, 0] + junk
  {
    DotsText();
  }

  /** A file system with the root directory only. */
  lemma FreshFs(x: Tables)
    requires FileImage.Valid(x.m) && Shaped(x)
    requires forall i :: 0 < i < 128 ==> FreeImage.Blank(x.m.inodes[i]) && x.names[i] == Mapping(false, 0, [])
    requires x.m.inodes[0].avail && x.names[0].avail && x.m.inodes[0].nlink == 2 && x.m.inodes[0].size == 9
    requires x.names[0].ino == 0 && x.names[0].path == [SLASH] && x.up[0] == 0 && x.entries[0] == []
    requires x.m.inodes[0].isDir && Holds(Contents(x.m, 0), Directory(0, 0, []))
    ensures FsValid(x, View(map[], map[[SLASH] := []]))
  {
    hide FileImage.Valid, Directory, Contents, Holds, Lookup, GoodPath;
    NoEntries();
    LookupLive(x.m.inodes, x.names, 0);
    assert Names([]) == [];
  }
}
