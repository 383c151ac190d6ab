/** The tables as they lie in memory on x86-64 Linux (asst3/assignment3/src/params.h:50-75, sfs.c:53-65): what sfs_destroy
    copies, and what sfs_init makes of it. */
module TableBytes {
  import opened Blocks
  import opened IndexTree
  import opened StoreImage
  import opened FsImage
  import opened FileSystem
  import opened Mount

  /** The fields of struct stat that the rest of the model leaves out. The source never stores the others, which stay 0. */
  datatype Extra = Extra(mode: nat, uid: nat, gid: nat, atime: int, mtime: int, ctime: int)

  /** The four tables. */
  datatype Memory = Memory(inodes: seq<Inode>, names: seq<Mapping>, used: seq<bool>, open: seq<FileEntry>)

  // ---------------------------------------------------------------- integers

  predicate Fits64(x: int) {
    -0x8000_0000_0000_0000 <= x < 0x8000_0000_0000_0000
  }

  /** An off_t or another 64-bit integer in memory. */
  function LongBytes(x: int): (r: seq<byte>)
    requires Fits64(x)
    ensures |r| == 8
  {
    Bytes(if x < 0 then x + 0x1_0000_0000_0000_0000 else x, 8)
  }

  function LongValue(b: seq<byte>): int {
    var u := Value(b);
    if u < 0x8000_0000_0000_0000 then u else u - 0x1_0000_0000_0000_0000
  }

  lemma LongRoundTrip(x: int)
    requires Fits64(x)
    ensures LongValue(LongBytes(x)) == x
  {
    hide Bytes, Value;
    PowerEight();
    ValueOfBytes(if x < 0 then x + 0x1_0000_0000_0000_0000 else x, 8);
  }

  lemma PowerEight()
    ensures Power(7) == 0x100_0000_0000_0000 && Power(8) == 0x1_0000_0000_0000_0000
  {
    assert Power(1) == 256 && Power(2) == 65536 && Power(3) == 16777216 && Power(4) == 0x1_0000_0000;
    assert Power(5) == 0x100_0000_0000 && Power(6) == 0x1_0000_0000_0000;
  }

  lemma PowerSmall()
    ensures Power(2) == 65536 && Power(4) == 0x1_0000_0000
  {
    assert Power(1) == 256 && Power(3) == 16777216;
  }

  /** A short in memory, as a block number; the source asks of a negative one only that it is negative. */
  function ShortByte(v: BlockNo, w: int): byte {
    var u := if v < 0 then v + 65536 else v;
    if w == 0 then u % 256 else u / 256
  }

  function BlockNoValue(lo: byte, hi: byte): BlockNo {
    var u: int := lo + 256 * hi;
    if u >= 32768 then -1 else u
  }

  lemma ShortRoundTrip(v: BlockNo)
    ensures BlockNoValue(ShortByte(v, 0), ShortByte(v, 1)) == v
  {
  }

  // ---------------------------------------------------------------- inode_t, 176 bytes

  /** avail at 0, st_nlink at 24, st_mode at 32, st_uid at 36, st_gid at 40, st_size at 56, st_blocks at 72, the seconds of
      the three times at 80, 96 and 112, blocks at 152. */
  predicate InodeFits(i: Inode, e: Extra) {
    && Fits64(i.nlink) && Fits64(i.size) && Fits64(i.nblocks)
    && e.mode < 0x1_0000_0000 && e.uid < 0x1_0000_0000 && e.gid < 0x1_0000_0000
    && Fits64(e.atime) && Fits64(e.mtime) && Fits64(e.ctime)
    && (S_ISDIR(e.mode) <==> i.isDir)
  }

  predicate S_ISDIR(mode: nat) {
    mode / 4096 % 16 == 4
  }

  function InodeByte(i: Inode, e: Extra, w: int): byte
    requires InodeFits(i, e) && 0 <= w < 176
  {
    if w < 2 then (if w == 0 && i.avail then 1 else 0)
    else if w < 24 then 0
    else if w < 32 then LongBytes(i.nlink)[w - 24]
    else if w < 36 then Bytes(e.mode, 4)[w - 32]
    else if w < 40 then Bytes(e.uid, 4)[w - 36]
    else if w < 44 then Bytes(e.gid, 4)[w - 40]
    else if w < 56 then 0
    else if w < 64 then LongBytes(i.size)[w - 56]
    else if w < 72 then 0
    else if w < 80 then LongBytes(i.nblocks)[w - 72]
    else if w < 88 then LongBytes(e.atime)[w - 80]
    else if w < 96 then 0
    else if w < 104 then LongBytes(e.mtime)[w - 96]
    else if w < 112 then 0
    else if w < 120 then LongBytes(e.ctime)[w - 112]
    else if w < 152 then 0
    else ShortByte(i.blocks[(w - 152) / 2], (w - 152) % 2)
  }

  function InodeValue(b: seq<byte>): Inode
    requires |b| == 176
  {
    Inode(Value(b[0..2]) != 0, S_ISDIR(Value(b[32..36])), LongValue(b[24..32]), LongValue(b[56..64]), LongValue(b[72..80]),
          seq(12, j requires 0 <= j < 12 => BlockNoValue(b[152 + 2 * j], b[153 + 2 * j])))
  }

  function InodeBytes(i: Inode, e: Extra): (r: seq<byte>)
    requires InodeFits(i, e)
    ensures |r| == 176
  {
    seq(176, w requires 0 <= w < 176 => InodeByte(i, e, w))
  }

  /** Where the fields of an inode lie. */
  lemma InodeLayout(i: Inode, e: Extra)
    requires InodeFits(i, e)
    ensures var b := InodeBytes(i, e);
            && b[0..8] == [if i.avail then 1 else 0, 0, 0, 0, 0, 0, 0, 0]
            && b[24..32] == LongBytes(i.nlink) && b[32..36] == Bytes(e.mode, 4)
            && b[56..64] == LongBytes(i.size) && b[72..80] == LongBytes(i.nblocks)
            && forall j :: 0 <= j < 12 ==> b[152 + 2 * j] == ShortByte(i.blocks[j], 0) && b[153 + 2 * j] == ShortByte(i.blocks[j], 1)
  {
    hide LongBytes, Bytes, ShortByte, S_ISDIR;
  }

  lemma InodeRoundTrip(i: Inode, e: Extra)
    requires InodeFits(i, e)
    ensures InodeValue(InodeBytes(i, e)) == i
  {
    hide LongBytes, LongValue, Bytes, Value, ShortByte, BlockNoValue, S_ISDIR;
    var b := InodeBytes(i, e);
    assert b[24..32] == LongBytes(i.nlink);
    assert b[56..64] == LongBytes(i.size);
    assert b[72..80] == LongBytes(i.nblocks);
    assert b[32..36] == Bytes(e.mode, 4);
    LongRoundTrip(i.nlink);
    LongRoundTrip(i.size);
    LongRoundTrip(i.nblocks);
    PowerSmall();
    ValueOfBytes(e.mode, 4);
    FlagRoundTrip(b[0..2], i.avail);
    forall j | 0 <= j < 12
      ensures BlockNoValue(b[152 + 2 * j], b[153 + 2 * j]) == i.blocks[j]
    {
      ShortRoundTrip(i.blocks[j]);
      assert (152 + 2 * j - 152) / 2 == j && (153 + 2 * j - 152) / 2 == j;
    }
    assert InodeValue(b).blocks == i.blocks;
  }

  lemma FlagRoundTrip(b: seq<byte>, flag: bool)
    requires b == [if flag then 1 else 0, 0]
    ensures Value(b) != 0 <==> flag
  {
    var rest := b[1..];
    assert rest == [0] && rest[1..] == [];
    assert Value(rest[1..]) == 0;
    assert Value(rest) == rest[0] + 256 * Value(rest[1..]) == 0;
    assert Value(b) == b[0] + 256 * Value(rest);
  }

  // ---------------------------------------------------------------- path_map_t, 136 bytes

  /** avail at 0, st_ino at 4, path at 8. */
  predicate MappingFits(m: Mapping) {
    -0x8000_0000 <= m.ino < 0x8000_0000 && |m.path| < 128 && 0 !in m.path
  }

  function MappingByte(m: Mapping, w: int): byte
    requires MappingFits(m) && 0 <= w < 136
  {
    if w < 2 then (if w == 0 && m.avail then 1 else 0)
    else if w < 4 then 0
    else if w < 8 then IntBytes(m.ino)[w - 4]
    else if w - 8 < |m.path| then m.path[w - 8]
    else 0
  }

  function MappingBytes(m: Mapping): (r: seq<byte>)
    requires MappingFits(m)
    ensures |r| == 136
  {
    seq(136, w requires 0 <= w < 136 => MappingByte(m, w))
  }

  /** The C string in a buffer. */
  function CString(b: seq<byte>): seq<byte> {
    if b == [] || b[0] == 0 then [] else [b[0]] + CString(b[1..])
  }

  function MappingValue(b: seq<byte>): Mapping
    requires |b| == 136
  {
    Mapping(Value(b[0..2]) != 0, IntValue(b[4..8]), CString(b[8..136]))
  }

  lemma {:induction false} CStringOf(t: seq<byte>, b: seq<byte>)
    requires 0 !in t && |t| < |b| && b[..|t|] == t && b[|t|] == 0
    ensures CString(b) == t
  {
    if t != [] {
      assert b[0] == b[..|t|][0] == t[0] && t[0] in t;
      assert b[1..][..|t| - 1] == b[..|t|][1..] == t[1..];
      CStringOf(t[1..], b[1..]);
    }
  }

  lemma MappingRoundTrip(m: Mapping)
    requires MappingFits(m)
    ensures MappingValue(MappingBytes(m)) == m
  {
    hide IntBytes, IntValue, Value, CString;
    var b := MappingBytes(m);
    assert b[4..8] == IntBytes(m.ino);
    IntRoundTrip(m.ino);
    FlagRoundTrip(b[0..2], m.avail);
    var p := b[8..136];
    assert p[..|m.path|] == m.path && p[|m.path|] == 0;
    CStringOf(m.path, p);
  }

  // ---------------------------------------------------------------- file_entry_t, 16 bytes

  predicate EntryFits(e: FileEntry) {
    && -0x8000_0000 <= e.refcnt < 0x8000_0000 && -0x8000_0000 <= e.ino < 0x8000_0000 && Fits64(e.pos)
  }

  function EntryBytes(e: FileEntry): (r: seq<byte>)
    requires EntryFits(e)
    ensures |r| == 16
  {
    IntBytes(e.refcnt) + IntBytes(e.ino) + LongBytes(e.pos)
  }

  function EntryValue(b: seq<byte>): FileEntry
    requires |b| == 16
  {
    FileEntry(IntValue(b[0..4]), IntValue(b[4..8]), LongValue(b[8..16]))
  }

  lemma EntryRoundTrip(e: FileEntry)
    requires EntryFits(e)
    ensures EntryValue(EntryBytes(e)) == e
  {
    hide IntBytes, IntValue, LongBytes, LongValue;
    var b := EntryBytes(e);
    assert b[0..4] == IntBytes(e.refcnt) && b[4..8] == IntBytes(e.ino) && b[8..16] == LongBytes(e.pos);
    IntRoundTrip(e.refcnt);
    IntRoundTrip(e.ino);
    LongRoundTrip(e.pos);
  }

  // ---------------------------------------------------------------- the tables

  predicate Fits(m: Memory, extra: seq<Extra>) {
    && |m.inodes| == |extra| == |m.names| == |m.open| == 128 && |m.used| == NUM_BLOCKS
    && (forall i :: 0 <= i < 128 ==> InodeFits(m.inodes[i], extra[i]))
    && (forall i :: 0 <= i < 128 ==> MappingFits(m.names[i]))
    && (forall i :: 0 <= i < 128 ==> EntryFits(m.open[i]))
  }

  function Encode(m: Memory, extra: seq<Extra>, rootInode: int32, rootBlock: int32): (s: Saved)
    requires Fits(m, extra)
    ensures Sized(s)
  {
    Saved(seq(INODES, p requires 0 <= p < INODES => InodeBytes(m.inodes[p / 176], extra[p / 176])[p % 176]),
          seq(NAMES, p requires 0 <= p < NAMES => MappingBytes(m.names[p / 136])[p % 136]),
          seq(USED, p requires 0 <= p < USED => if p % 2 == 0 && m.used[p / 2] then 1 else 0),
          seq(OPEN, p requires 0 <= p < OPEN => EntryBytes(m.open[p / 16])[p % 16]),
          rootInode, rootBlock)
  }

  function Decode(s: Saved): Memory
    requires Sized(s)
  {
    Memory(seq(128, i requires 0 <= i < 128 => InodeValue(s.inodes[176 * i..176 * i + 176])),
           seq(128, i requires 0 <= i < 128 => MappingValue(s.names[136 * i..136 * i + 136])),
           seq(NUM_BLOCKS, b requires 0 <= b < NUM_BLOCKS => s.used[2 * b] != 0 || s.used[2 * b + 1] != 0),
           seq(128, i requires 0 <= i < 128 => EntryValue(s.open[16 * i..16 * i + 16])))
  }

  /** Reading back the tables gives what was there. */
  lemma TablesRoundTrip(m: Memory, extra: seq<Extra>, rootInode: int32, rootBlock: int32)
    requires Fits(m, extra)
    ensures Decode(Encode(m, extra, rootInode, rootBlock)) == m
  {
    hide InodeFits, MappingFits, EntryFits, InodeBytes, InodeValue, MappingBytes, MappingValue, EntryBytes, EntryValue;
    var s := Encode(m, extra, rootInode, rootBlock);
    forall i | 0 <= i < 128
      ensures InodeValue(s.inodes[176 * i..176 * i + 176]) == m.inodes[i]
      ensures MappingValue(s.names[136 * i..136 * i + 136]) == m.names[i]
      ensures EntryValue(s.open[16 * i..16 * i + 16]) == m.open[i]
    {
      EntriesAt(m, extra, rootInode, rootBlock, i);
      InodeRoundTrip(m.inodes[i], extra[i]);
      MappingRoundTrip(m.names[i]);
      EntryRoundTrip(m.open[i]);
    }
    var r := Decode(s);
    assert r.inodes == m.inodes && r.names == m.names && r.open == m.open && r.used == m.used;
  }

  lemma EntriesAt(m: Memory, extra: seq<Extra>, rootInode: int32, rootBlock: int32, i: int)
    requires Fits(m, extra) && 0 <= i < 128
    ensures var s := Encode(m, extra, rootInode, rootBlock);
            && s.inodes[176 * i..176 * i + 176] == InodeBytes(m.inodes[i], extra[i])
            && s.names[136 * i..136 * i + 136] == MappingBytes(m.names[i])
            && s.open[16 * i..16 * i + 16] == EntryBytes(m.open[i])
  {
    hide InodeFits, MappingFits, EntryFits, InodeBytes, MappingBytes, EntryBytes;
    var s := Encode(m, extra, rootInode, rootBlock);
    assert forall w :: 0 <= w < 176 ==> s.inodes[176 * i + w] == InodeBytes(m.inodes[i], extra[i])[w];
    assert forall w :: 0 <= w < 136 ==> s.names[136 * i + w] == MappingBytes(m.names[i])[w];
    assert forall w :: 0 <= w < 16 ==> s.open[16 * i + w] == EntryBytes(m.open[i])[w];
  }

  // ---------------------------------------------------------------- no piece of the tables reads as KEY

  /** The bytes of KEY: 0x25 is a percent sign. */
  lemma KeyBytes()
    ensures Bytes(KEY, 8) == [0x25, 0xB8, 0x51, 0xEF, 0x4B, 0x14, 0xC4, 0xA7]
  {
    hide Bytes;
    LowBytes(KEY, 8);
    LowBytes(0xA7C4_144B_EF51, 6);
    LowBytes(0xA7C4_144B, 4);
    LowBytes(0xA7C4, 2);
    assert Bytes(0, 0) == [];
  }

  lemma LowBytes(x: nat, n: nat)
    requires n >= 2
    ensures Bytes(x, n) == [x % 256, x / 256 % 256] + Bytes(x / 256 / 256, n - 2)
  {
  }

  /** What the tables of a file system satisfy besides: link counts and sizes far from the limits, positions 0, and no
      percent sign in a path. */
  predicate Plain(m: Memory) {
    && (forall i :: 0 <= i < |m.inodes| ==> PlainInode(m.inodes[i]))
    && (forall i :: 0 <= i < |m.names| ==> 0x25 !in m.names[i].path)
    && (forall i :: 0 <= i < |m.open| ==> m.open[i].pos == 0)
  }

  predicate PlainInode(i: Inode) {
    -0x8000_0000 <= i.nlink < 0x8000_0000 && -0x8000_0000 <= i.size < 0x8000_0000 && -0x8000_0000 <= i.nblocks < 0x8000_0000
  }

  /** The highest byte of a long that fits an int is 0 or 255. */
  lemma HighByte(x: int)
    requires -0x8000_0000 <= x < 0x8000_0000
    ensures LongBytes(x)[7] == 0 || LongBytes(x)[7] == 255
  {
    hide Bytes, Power;
    PowerEight();
    if x < 0 {
      FullTop(x + 0x1_0000_0000_0000_0000, 8);
    } else {
      EmptyTop(x, 8);
    }
  }

  lemma {:induction false} EmptyTop(x: nat, n: nat)
    requires n > 0 && x < Power(n - 1)
    ensures Bytes(x, n)[n - 1] == 0
  {
    if n > 1 {
      EmptyTop(x / 256, n - 1);
    }
  }

  lemma {:induction false} FullTop(x: nat, n: nat)
    requires n > 0 && 255 * Power(n - 1) <= x < 256 * Power(n - 1)
    ensures Bytes(x, n)[n - 1] == 255
  {
    if n > 1 {
      FullTop(x / 256, n - 1);
    }
  }

  /** Eight bytes somewhere differ from KEY. */
  predicate Differs(b: seq<byte>, w: int)
    requires 0 <= w && w + 8 <= |b|
  {
    b[w] != 0x25 || b[w + 1] != 0xB8 || b[w + 4] != 0x4B || b[w + 7] != 0xA7
  }

  lemma InodeDiffers(i: Inode, e: Extra, w: int)
    requires InodeFits(i, e) && PlainInode(i) && 0 <= w <= 168 && w % 16 == 8
    ensures Differs(InodeBytes(i, e), w)
  {
    hide LongBytes, Bytes, S_ISDIR;
    HighByte(i.nlink);
    HighByte(i.size);
    HighByte(i.nblocks);
    var b := InodeBytes(i, e);
    assert b[31] == LongBytes(i.nlink)[7] && b[63] == LongBytes(i.size)[7] && b[79] == LongBytes(i.nblocks)[7];
    assert b[153] == ShortByte(i.blocks[0], 1) && b[169] == ShortByte(i.blocks[8], 1);
  }

  lemma MappingDiffers(m: Mapping, w: int)
    requires MappingFits(m) && 0x25 !in m.path && 0 <= w <= 128 && w % 8 == 0
    ensures Differs(MappingBytes(m), w)
  {
    hide IntBytes;
  }

  lemma ZeroLong()
    ensures LongBytes(0)[0] == 0
  {
  }

  lemma EntryDiffers(e: FileEntry)
    requires EntryFits(e) && e.pos == 0
    ensures Differs(EntryBytes(e), 8)
  {
    hide IntBytes, Bytes;
    assert EntryBytes(e)[8] == LongBytes(e.pos)[0];
    ZeroLong();
  }

  /** Where byte p of the image lies in the tables. */
  lemma LayoutAt(s: Saved, p: int)
    requires Sized(s) && 0 <= p < RESERVE
    ensures |Layout(s)| == RESERVE
    ensures 8 <= p < 8 + INODES ==> Layout(s)[p] == s.inodes[p - 8]
    ensures 8 + INODES <= p < 8 + INODES + NAMES ==> Layout(s)[p] == s.names[p - 8 - INODES]
    ensures 8 + INODES + NAMES <= p < 8 + INODES + NAMES + USED ==> Layout(s)[p] == s.used[p - 8 - INODES - NAMES]
    ensures 8 + INODES + NAMES + USED <= p < 8 + INODES + NAMES + USED + OPEN ==>
              Layout(s)[p] == s.open[p - 8 - INODES - NAMES - USED]
  {
    hide Bytes, IntBytes;
  }

  predicate Saves(s: Saved, m: Memory, extra: seq<Extra>, rootInode: int32, rootBlock: int32) {
    Fits(m, extra) && s == Encode(m, extra, rootInode, rootBlock)
  }

  /** No block of the image but the first begins with KEY. */
  lemma NeverKeyed(s: Saved, m: Memory, extra: seq<Extra>, rootInode: int32, rootBlock: int32, i: int)
    requires Saves(s, m, extra, rootInode, rootBlock) && Sized(s) && Plain(m) && 1 <= i < RESERVE_BLOCKS
    ensures !PieceKeyed(s, i)
  {
    hide Bytes, Layout, Encode, Fits, Plain, Differs;
    var p := 512 * i;
    LayoutAt(s, p);
    var l := Layout(s);
    if p < 8 + INODES {
      InodesDiffer(m, extra, rootInode, rootBlock, p - 8);
    } else if p < 8 + INODES + NAMES {
      NamesDiffer(m, extra, rootInode, rootBlock, p - 8 - INODES);
    } else if p < 8 + INODES + NAMES + USED {
      UsedDiffers(m, extra, rootInode, rootBlock, p - 8 - INODES - NAMES);
    } else {
      OpenDiffers(m, extra, rootInode, rootBlock, p - 8 - INODES - NAMES - USED);
    }
    LayoutDiffers(s, p);
    NotKey(l, p);
  }

  lemma LayoutDiffers(s: Saved, p: int)
    requires Sized(s) && 8 <= p && p + 8 <= RESERVE && p % 512 == 0
    ensures |Layout(s)| == RESERVE
    ensures p < 8 + INODES ==> p + 8 <= 8 + INODES && (Differs(s.inodes, p - 8) ==> Differs(Layout(s), p))
    ensures 8 + INODES <= p < 8 + INODES + NAMES ==>
              var q := p - 8 - INODES; q + 8 <= NAMES && (Differs(s.names, q) ==> Differs(Layout(s), p))
    ensures 8 + INODES + NAMES <= p < 8 + INODES + NAMES + USED ==>
              var q := p - 8 - INODES - NAMES; q + 8 <= USED && (Differs(s.used, q) ==> Differs(Layout(s), p))
    ensures 8 + INODES + NAMES + USED <= p ==>
              var q := p - 8 - INODES - NAMES - USED; q + 8 <= OPEN && (Differs(s.open, q) ==> Differs(Layout(s), p))
  {
    hide Layout;
    LayoutAt(s, p);
    LayoutAt(s, p + 1);
    LayoutAt(s, p + 4);
    LayoutAt(s, p + 7);
  }

  lemma NotKey(l: seq<byte>, p: int)
    requires 0 <= p && p + 8 <= |l| && Differs(l, p)
    ensures l[p..p + 8] != Bytes(KEY, 8)
  {
    hide Bytes;
    KeyBytes();
    var piece := l[p..p + 8];
    assert piece[0] == l[p] && piece[1] == l[p + 1] && piece[4] == l[p + 4] && piece[7] == l[p + 7];
  }

  lemma SliceDiffers(r: seq<byte>, at: int, n: int, w: int)
    requires 0 <= at && 0 <= w && w + 8 <= n && at + n <= |r| && Differs(r[at..at + n], w)
    ensures Differs(r, at + w)
  {
    var b := r[at..at + n];
    assert b[w] == r[at + w] && b[w + 1] == r[at + w + 1] && b[w + 4] == r[at + w + 4] && b[w + 7] == r[at + w + 7];
  }

  lemma InodesDiffer(m: Memory, extra: seq<Extra>, rootInode: int32, rootBlock: int32, p: int)
    requires Fits(m, extra) && Plain(m) && 0 <= p && p + 8 <= INODES && p % 16 == 8
    ensures Differs(Encode(m, extra, rootInode, rootBlock).inodes, p)
  {
    hide InodeFits, MappingFits, EntryFits, InodeBytes, MappingBytes, EntryBytes, PlainInode, Encode, Differs;
    var j, w := p / 176, p % 176;
    assert w % 16 == 8 && w <= 168 && p == 176 * j + w;
    InodeDiffers(m.inodes[j], extra[j], w);
    EntriesAt(m, extra, rootInode, rootBlock, j);
    var r := Encode(m, extra, rootInode, rootBlock).inodes;
    SliceDiffers(r, 176 * j, 176, w);
  }

  lemma NamesDiffer(m: Memory, extra: seq<Extra>, rootInode: int32, rootBlock: int32, p: int)
    requires Fits(m, extra) && Plain(m) && 0 <= p && p + 8 <= NAMES && p % 8 == 0
    ensures Differs(Encode(m, extra, rootInode, rootBlock).names, p)
  {
    hide InodeFits, MappingFits, EntryFits, InodeBytes, MappingBytes, EntryBytes, PlainInode;
    MappingDiffers(m.names[p / 136], p % 136);
  }

  lemma UsedDiffers(m: Memory, extra: seq<Extra>, rootInode: int32, rootBlock: int32, p: int)
    requires Fits(m, extra) && 0 <= p && p + 8 <= USED && p % 2 == 0
    ensures Differs(Encode(m, extra, rootInode, rootBlock).used, p)
  {
    hide InodeFits, MappingFits, EntryFits, InodeBytes, MappingBytes, EntryBytes;
  }

  lemma OpenDiffers(m: Memory, extra: seq<Extra>, rootInode: int32, rootBlock: int32, p: int)
    requires Fits(m, extra) && Plain(m) && 0 <= p && p + 8 <= OPEN && p % 16 == 8
    ensures Differs(Encode(m, extra, rootInode, rootBlock).open, p)
  {
    hide InodeFits, MappingFits, EntryFits, InodeBytes, MappingBytes, EntryBytes, PlainInode;
    EntryDiffers(m.open[p / 16]);
  }
}
