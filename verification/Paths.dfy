/** Splitting a path at its last slash (asst3/assignment3/src/sfs.c:270-310). */
module Paths {
  import opened Blocks
  import opened DirText

  const PERCENT: byte := 37

  function LastSlash(p: Text): (k: int)
    ensures -1 <= k < |p|
    ensures k >= 0 ==> p[k] == SLASH
    ensures forall j :: k < j < |p| ==> p[j] != SLASH
  {
    if p == [] then -1
    else if p[|p| - 1] == SLASH then |p| - 1
    else LastSlash(p[..|p| - 1])
  }

  /** The scan both functions run. */
  method FindLastSlash(p: Text) returns (pos: int)
    ensures pos == LastSlash(p)
  {
    pos := -1;
    for i := 0 to |p|
      invariant -1 <= pos < i
      invariant pos >= 0 ==> p[pos] == SLASH
      invariant forall j :: pos < j < i ==> p[j] != SLASH
    {
      if p[i] == SLASH {
        pos := i;
      }
    }
  }

  function DirOf(p: Text): Text {
    if LastSlash(p) <= 0 then [SLASH] else p[..LastSlash(p)]
  }

  function LeafOf(p: Text): Text {
    if p == [SLASH] then p else p[LastSlash(p) + 1..]
  }

  /** get_cwd_path: without a slash in the path, -1, and the buffer is left as it was. */
  method GetCwdPath(p: Text, buf: Text) returns (ret: int, dir: Text)
    ensures if SLASH in p then ret == 0 && dir == DirOf(p) else ret == -1 && dir == buf
    ensures SLASH in p && dir != [SLASH] ==> |dir| < |p| && dir == p[..|dir|] && p[|dir|] == SLASH && SLASH !in p[|dir| + 1..]
    ensures SLASH in p && (forall k :: 0 < k < |p| ==> p[k] != SLASH) ==> dir == [SLASH]
  {
    if p == [SLASH] {
      return 0, [SLASH];
    }
    var pos := FindLastSlash(p);
    if pos < 0 {
      return -1, buf;
    }
    ret, dir := 0, if pos == 0 then [SLASH] else p[..pos];
  }

  /** get_name: without a slash in the path, -1, and the buffer is left as it was. On success the source returns nothing. */
  method GetName(p: Text, buf: Text) returns (found: bool, name: Text)
    ensures if SLASH in p then found && name == LeafOf(p) else !found && name == buf
    ensures SLASH in p && p != [SLASH] ==> SLASH !in name && |name| < |p| && p[|p| - |name| - 1] == SLASH && name == p[|p| - |name|..]
  {
    if p == [SLASH] {
      return true, [SLASH];
    }
    var pos := FindLastSlash(p);
    if pos < 0 {
      return false, buf;
    }
    found, name := true, p[pos + 1..];
  }

  /** Paths of files and directories other than the root: absolute and normalised, short enough for the name table,
      with a leaf the directory format can carry. A percent sign is excluded because the source passes the path to
      sprintf as the format. */
  predicate GoodPath(p: Text) {
    && 2 <= |p| < 128
    && p[0] == SLASH && LastSlash(p) != 1
    && PERCENT !in p && 0 !in p
    && Word(LeafOf(p))
  }

  function Joined(dir: Text, leaf: Text): Text {
    if dir == [SLASH] then dir + leaf else dir + [SLASH] + leaf
  }

  /** Directory and leaf determine the path. */
  lemma PathParts(p: Text)
    requires GoodPath(p)
    ensures SLASH in p && p == Joined(DirOf(p), LeafOf(p))
  {
    var k := LastSlash(p);
    assert k >= 0 && p[k] in p;
    assert p == p[..k] + [p[k]] + p[k + 1..];
  }
}
