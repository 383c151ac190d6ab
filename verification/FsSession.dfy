/** A run of calls on a file system, from the first mount on: what every read returns (asst3/assignment3/src/sfs.c:329-446,
    544-915). */
module FsSession {
  import opened Blocks
  import opened BlockCount
  import opened FreeCount
  import opened FileImage
  import opened BlockStore
  import opened DirText
  import opened Paths
  import opened FsImage
  import opened FileSystem
  import opened FsSteps
  import FsRuns

  /** A file system, with the operations it has performed since it was made. */
  class Session {
    const fs: FileSystem
    ghost var views: seq<View>
    ghost var ops: seq<FsRuns.Op>

    ghost predicate Valid()
      reads this, fs, fs.Repr()
    {
      && fs.Valid() && fs.open.Length == 128 && (forall h :: 0 <= h < 128 ==> fs.open[h].ino < 0)
      && FsRuns.IsRun(views, ops)
      && views[0] == View(map[], map[[SLASH] := []]) && views[|ops|] == fs.view
    }

    /** sfs_init on a new disk */
    constructor (contents: seq<Block>, junk: seq<byte>)
      requires |contents| == NUM_BLOCKS && |junk| == 503
      ensures Valid() && ops == []
    {
      hide FsValid;
      fs := new FileSystem.Init(contents, junk);
      ops := [];
      views := [View(map[], map[[SLASH] := []])];
    }

    /** Note that an operation took place. */
    ghost method Note(op: FsRuns.Op)
      requires FsRuns.IsRun(views, ops) && FsRuns.Takes(views[|ops|], op, fs.view)
      modifies this
      ensures FsRuns.IsRun(views, ops) && views[|ops|] == fs.view && views[0] == old(views[0]) && ops == old(ops) + [op]
    {
      hide FsRuns.Takes;
      views := views + [fs.view];
      ops := ops + [op];
    }

    /** sfs_create, then sfs_release. */
    method Create(path: Text)
      requires Valid() && GoodPath(path) && path !in fs.view.files && path !in fs.view.dirs
      requires Shaped(fs.T()) && Room(fs.T(), path)
      modifies this, fs, fs.Repr()
      ensures Valid() && ops == old(ops) + [FsRuns.Create(path)]
    {
      hide FileSystem.Valid, FsRuns.IsRun, FsRuns.Takes, DirGains, DirLoses, NewDirectoryOf;
      assert fs.open[0].ino < 0;
      var ret, fh := fs.Create(path);
      fs.Release(fh);
      Note(FsRuns.Create(path));
    }

    /** sfs_mkdir */
    method Mkdir(path: Text)
      requires Valid() && GoodPath(path) && path !in fs.view.files && path !in fs.view.dirs
      requires Shaped(fs.T()) && Room(fs.T(), path) && CountFree(fs.store.used[..]) > 0
      modifies this, fs, fs.Repr()
      ensures Valid() && ops == old(ops) + [FsRuns.Mkdir(path)]
    {
      hide FileSystem.Valid, FsRuns.IsRun, FsRuns.Takes, DirGains, DirLoses, NewDirectoryOf;
      var ret := fs.Mkdir(path);
      Note(FsRuns.Mkdir(path));
    }

    /** sfs_unlink on a file */
    method Unlink(path: Text)
      requires Valid() && GoodPath(path) && path in fs.view.files && path !in fs.view.dirs
      requires Shaped(fs.T()) && Removable(fs.T(), path)
      modifies this, fs, fs.Repr()
      ensures Valid() && ops == old(ops) + [FsRuns.Unlink(path)]
    {
      hide FileSystem.Valid, FsRuns.IsRun, FsRuns.Takes, DirGains, DirLoses, NewDirectoryOf;
      var ret := fs.Unlink(path);
      Note(FsRuns.Unlink(path));
    }

    /** sfs_open, sfs_write at the end of the file, sfs_release. */
    method Append(path: Text, data: seq<byte>)
      requires Valid() && path in fs.view.files && path != [] && data != []
      requires var size := |fs.view.files[path]|;
               && size + |data| <= 1110 * 512
               && CountFree(fs.store.used[..]) >= Cost(BlocksFor(size), BlocksFor(size + |data|))
      modifies this, fs, fs.Repr()
      ensures Valid() && ops == old(ops) + [FsRuns.Append(path, data)]
    {
      hide FsValid, HandlesLive, FsRuns.IsRun, FsRuns.Takes, CountFree, Cost, BlocksFor, FileSystem.OpenOn;
      var attr, stat := fs.GetAttr(path);
      var h := OpenFirst(fs, path);
      BlocksMonotone(stat.size, stat.size + |data|);
      var ret := fs.Write(h, data, stat.size);
      fs.Release(h);
      Note(FsRuns.Append(path, data));
    }

    /** sfs_open, sfs_read, sfs_release: in every run, the reader gets the window of what was appended to the file since its
        creation. */
    method Read(path: Text, size: int, offset: int) returns (ret: int, data: seq<byte>)
      requires Valid() && path in fs.view.files && path != []
      requires 0 <= offset < 0x8000_0000_0000_0000 && 0 <= size && offset + size < 0x1_0000_0000_0000_0000
      modifies fs.open
      ensures Valid() && ops == old(ops)
      ensures var all := FsRuns.Appended(FsRuns.Life(ops, path), path);
              if offset >= |all| then ret == -1 else ret == |data| && data == Window(all, offset, size)
    {
      hide FsValid, FsRuns.IsRun, FsRuns.Appended, FsRuns.Life, FileSystem.OpenOn;
      FsRuns.ContentsAreAppends(views, ops, path);
      var h := OpenFirst(fs, path);
      ret, data := fs.Read(h, size, offset);
      fs.Release(h);
    }
  }

  /** sfs_open, when no handle is open. */
  method OpenFirst(fs: FileSystem, path: Text) returns (h: int)
    requires fs.Valid() && path in fs.view.files && path != []
    requires fs.open.Length == 128 && forall k :: 0 <= k < 128 ==> fs.open[k].ino < 0
    modifies fs.open
    ensures fs.Valid() && fs.view == old(fs.view) && 0 <= h < 128
    ensures fs.IsOpen(h) && fs.PathOf(h) == path && fs.FileAt(h) == fs.view.files[path] && fs.open[h].ino < fs.store.inodes.Length
    ensures var f := fs.store.inodes[fs.open[h].ino]; f.size == |fs.view.files[path]| && f.nblocks == BlocksFor(f.size)
    ensures forall k :: 0 <= k < 128 && k != h ==> fs.open[k].ino < 0
  {
    hide FsValid, BlocksFor;
    assert fs.open[0].ino < 0;
    h := fs.Open(path);
    OpenFile(fs, h, path);
  }

  /** A handle that was opened on a path refers to the file of that path. */
  lemma OpenFile(fs: FileSystem, h: int, path: Text)
    requires fs.Valid() && fs.OpenOn(h, path) && path != []
    ensures fs.IsOpen(h) && fs.PathOf(h) == path && fs.FileAt(h) == fs.view.files[path]
    ensures fs.open[h].ino < fs.store.inodes.Length
    ensures var f := fs.store.inodes[fs.open[h].ino]; f.size == |fs.view.files[path]| && f.nblocks == BlocksFor(f.size)
  {
    hide Core, Wired, DirsStored, ByteAt, Tallied, Lookup, BlocksFor;
    LookupLive(fs.store.inodes[..], fs.names[..], fs.open[h].ino);
  }
}
