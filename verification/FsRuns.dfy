/** Runs of the file system, as its operations change what it stands for, and what is on the disk after them. Every
    operation of the class FileSystem takes the view where `Takes` says. */
module FsRuns {
  import opened Blocks
  import opened DirText
  import opened Paths
  import opened FsImage
  import opened FileImage

  datatype Op =
    | Create(path: Text)
    | Mkdir(path: Text)
    | Append(path: Text, data: seq<byte>)
    | Unlink(path: Text)

  predicate Allowed(v: View, op: Op) {
    match op
    case Create(p) => p !in v.files && p !in v.dirs && DirOf(p) in v.dirs
    case Mkdir(p) => p !in v.files && p !in v.dirs && DirOf(p) in v.dirs
    case Append(p, data) => p in v.files
    case Unlink(p) => p in v.files && DirOf(p) in v.dirs
  }

  function Apply(v: View, op: Op): View
    requires Allowed(v, op)
  {
    match op
    case Create(p) => WithNode(v, p, false)
    case Mkdir(p) => WithNode(v, p, true)
    case Append(p, data) => v.(files := v.files[p := v.files[p] + data])
    case Unlink(p) => WithoutNode(v, p)
  }

  /** From view v the operation leads to view w. */
  ghost predicate Takes(v: View, op: Op, w: View) {
    Allowed(v, op) && w == Apply(v, op)
  }

  /** The views a run passes through. */
  ghost predicate IsRun(views: seq<View>, ops: seq<Op>) {
    && |views| == |ops| + 1
    && (forall i :: 0 <= i < |ops| ==> Takes(views[i], ops[i], views[i + 1]))
  }

  /** The bytes appended to p by some operations. */
  function Appended(ops: seq<Op>, p: Text): seq<byte> {
    if ops == [] then []
    else
      var last := ops[|ops| - 1];
      Appended(ops[..|ops| - 1], p) + (if last.Append? && last.path == p then last.data else [])
  }

  /** The operations after the last creation of p; all of them if p was not created. */
  function Life(ops: seq<Op>, p: Text): seq<Op> {
    if ops == [] then []
    else
      var last := ops[|ops| - 1];
      if last == Create(p) then [] else Life(ops[..|ops| - 1], p) + [last]
  }

  /** What one operation does to a file that it does not create. */
  lemma StepFile(v: View, op: Op, p: Text)
    requires Allowed(v, op) && op != Create(p) && p in Apply(v, op).files
    ensures p in v.files
    ensures Apply(v, op).files[p] == v.files[p] + (if op.Append? && op.path == p then op.data else [])
  {
    hide DirOf, LeafOf, Minus;
  }

  lemma StepCreate(v: View, p: Text)
    requires Allowed(v, Create(p))
    ensures p in Apply(v, Create(p)).files && Apply(v, Create(p)).files[p] == []
  {
  }

  lemma {:induction false} LifeStep(ops: seq<Op>, p: Text)
    ensures ops == [] ==> Appended(Life(ops, p), p) == []
    ensures ops != [] ==>
              var last := ops[|ops| - 1];
              if last == Create(p) then Appended(Life(ops, p), p) == []
              else Appended(Life(ops, p), p) == Appended(Life(ops[..|ops| - 1], p), p)
                                                + (if last.Append? && last.path == p then last.data else [])
  {
    if ops != [] {
      var before := Life(ops[..|ops| - 1], p);
      assert (before + [ops[|ops| - 1]])[..|before|] == before;
    }
  }

  /** After every run, a live file holds exactly the concatenation of what was appended to it since its creation. */
  lemma {:induction false} ContentsAreAppends(views: seq<View>, ops: seq<Op>, p: Text)
    requires IsRun(views, ops) && p in views[|ops|].files
    ensures Create(p) !in ops ==> p in views[0].files
    ensures views[|ops|].files[p] == (if Create(p) in ops then [] else views[0].files[p]) + Appended(Life(ops, p), p)
  {
    hide Allowed, Apply, Life, Appended;
    LifeStep(ops, p);
    if ops != [] {
      var n := |ops| - 1;
      var before, last := ops[..n], ops[n];
      assert ops == before + [last];
      assert views[n + 1] == Apply(views[n], last);
      if last == Create(p) {
        StepCreate(views[n], p);
      } else {
        StepFile(views[n], last, p);
        ContentsAreAppends(views[..n + 1], before, p);
      }
    }
  }

  // ---------------------------------------------------------------- on the disk

  /** A run of the tables and the disk: every state is a valid file system that stands for the view. */
  ghost predicate DiskRun(xs: seq<Tables>, views: seq<View>, ops: seq<Op>) {
    && |xs| == |views| && IsRun(views, ops)
    && (forall i :: 0 <= i < |xs| ==> FsValid(xs[i], views[i]))
  }

  /** Where the tables have the file of a path, and what the disk holds there. */
  lemma FileOnDisk(x: Tables, v: View, p: Text)
    requires FsValid(x, v) && p in v.files
    ensures var i := Lookup(x.names, p);
            && 0 <= i < 128 && Shaped(x) && x.m.inodes[i].avail && !x.m.inodes[i].isDir
            && Contents(x.m, i) == v.files[p] && x.m.inodes[i].size == |v.files[p]|
  {
    hide Core, Wired, DirsStored, Lookup, ByteAt, Tallied;
    LookupFound(x.m.inodes, x.names, p);
  }

  /** After every run, the blocks on the disk that the tables give to a path hold exactly the concatenation of what was
      appended to it since its creation, and st_size is the length of that. */
  lemma DiskHoldsAppends(xs: seq<Tables>, views: seq<View>, ops: seq<Op>, p: Text)
    requires DiskRun(xs, views, ops) && p in views[|ops|].files && Create(p) in ops
    ensures var x := xs[|ops|]; var i := Lookup(x.names, p);
            && 0 <= i < 128 && Shaped(x) && x.m.inodes[i].avail && !x.m.inodes[i].isDir
            && Contents(x.m, i) == Appended(Life(ops, p), p) && x.m.inodes[i].size == |Contents(x.m, i)|
  {
    hide Life, Appended, FsValid, Contents;
    ContentsAreAppends(views, ops, p);
    FileOnDisk(xs[|ops|], views[|ops|], p);
  }

  /** Valid file systems that stand for the same view hold the same bytes under every path and list the same names. */
  lemma SameView(x: Tables, y: Tables, v: View, p: Text)
    requires FsValid(x, v) && FsValid(y, v)
    ensures p in v.files ==>
              var i, j := Lookup(x.names, p), Lookup(y.names, p);
              0 <= i < 128 && 0 <= j < 128 && Shaped(x) && Shaped(y) && Contents(y.m, j) == Contents(x.m, i)
    ensures p in v.dirs ==>
              var i, j := Lookup(x.names, p), Lookup(y.names, p);
              0 <= i < 128 && 0 <= j < 128 && Shaped(x) && Shaped(y) && Names(y.entries[j]) == Names(x.entries[i])
  {
    hide FsValid, Contents, Names;
    if p in v.files {
      FileOnDisk(x, v, p);
      FileOnDisk(y, v, p);
    }
    if p in v.dirs {
      DirOnDisk(x, v, p);
      DirOnDisk(y, v, p);
    }
  }

  lemma DirOnDisk(x: Tables, v: View, p: Text)
    requires FsValid(x, v) && p in v.dirs
    ensures var i := Lookup(x.names, p);
            0 <= i < 128 && Shaped(x) && x.names[i].avail && x.m.inodes[i].isDir && x.names[i].path == p && Names(x.entries[i]) == v.dirs[p]
  {
    hide Core, Wired, DirsStored, Lookup, Contents, Tallied, Names;
    LookupFound(x.m.inodes, x.names, p);
  }

  /** In a valid file system the leaf of a path that can be created is not listed yet. */
  lemma CreatableIsNew(x: Tables, v: View, p: Text)
    requires FsValid(x, v) && Allowed(v, Create(p)) && GoodPath(p)
    ensures LeafOf(p) !in v.dirs[DirOf(p)]
  {
    hide Core, Contents, Lookup, GoodPath, DirOf, LeafOf, DirsStored, Tallied, Wired, Lockstep, Names;
    DirOnDisk(x, v, DirOf(p));
    var d := Lookup(x.names, DirOf(p));
    PathParts(p);
    NotFound(x, v, p);
    LeafIsNew(x, d, p);
    NamesOf(x.entries[d]);
  }

  lemma NamesOf(es: seq<DirEntry>)
    ensures |Names(es)| == |es| && forall k :: 0 <= k < |es| ==> Names(es)[k] == es[k].name
  {
  }

  lemma NotFound(x: Tables, v: View, p: Text)
    requires FsValid(x, v) && p !in v.files && p !in v.dirs && p != []
    ensures Lookup(x.names, p) < 0
  {
    hide Core, Contents, Lookup, DirsStored, Tallied, Wired, Names;
    if Lookup(x.names, p) >= 0 {
      LookupFound(x.m.inodes, x.names, p);
    }
  }

  /** Unlinking a file just created restores the file system: the bytes of every file and the list of every directory,
      whatever slots and blocks were used. */
  lemma UnlinkUndoesCreate(x: Tables, v: View, p: Text, y: Tables, w: View, q: Text)
    requires FsValid(x, v) && GoodPath(p) && Allowed(v, Create(p))
    requires Takes(Apply(v, Create(p)), Unlink(p), w) && FsValid(y, w)
    ensures w == v
    ensures q in v.files ==>
              var i, j := Lookup(x.names, q), Lookup(y.names, q);
              0 <= i < 128 && 0 <= j < 128 && Shaped(x) && Shaped(y) && Contents(y.m, j) == Contents(x.m, i)
    ensures q in v.dirs ==>
              var i, j := Lookup(x.names, q), Lookup(y.names, q);
              0 <= i < 128 && 0 <= j < 128 && Shaped(x) && Shaped(y) && Names(y.entries[j]) == Names(x.entries[i])
  {
    hide FsValid, Contents, Names, GoodPath;
    CreatableIsNew(x, v, p);
    ViewRestored(v, p);
    SameView(x, y, v, q);
  }

  lemma {:induction false} ViewRestored(v: View, p: Text)
    requires Allowed(v, Create(p)) && LeafOf(p) !in v.dirs[DirOf(p)]
    ensures Apply(Apply(v, Create(p)), Unlink(p)) == v
  {
    var ns := v.dirs[DirOf(p)];
    MinusAt(ns + [LeafOf(p)], |ns|);
    assert Without(ns + [LeafOf(p)], |ns|) == ns;
    var w := Apply(Apply(v, Create(p)), Unlink(p));
    assert w.dirs == v.dirs && w.files == v.files;
  }
}
