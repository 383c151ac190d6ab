/** Saving all tables at unmount and finding them again at mount (asst3/assignment3/src/sfs.c:339-394, 460-489). The tables
    are copied as they lie in memory, so here they are strings of bytes, with the sizes of the x86-64 layout. */
module Mount {
  import opened Blocks

  const KEY: int := 0xA7C4144BEF51B825

  /** sizeof inode_table, name_table, disk_blocks and open_files */
  const INODES: nat := 176 * 128
  const NAMES: nat := 136 * 128
  const USED: nat := 2 * 32768
  const OPEN: nat := 16 * 128

  /** `reserve`, `reserve_blocks` and the place of the image on a new disk */
  const RESERVE: nat := 8 + INODES + NAMES + USED + OPEN + 8
  const RESERVE_BLOCKS: nat := (RESERVE + 512) / 512
  const SYSTEM: nat := NUM_BLOCKS - RESERVE_BLOCKS

  type int32 = x: int | -0x8000_0000 <= x < 0x8000_0000

  datatype Saved = Saved(inodes: seq<byte>, names: seq<byte>, used: seq<byte>, open: seq<byte>, rootInode: int32, rootBlock: int32)

  predicate Sized(s: Saved) {
    |s.inodes| == INODES && |s.names| == NAMES && |s.used| == USED && |s.open| == OPEN
  }

  /** The tables take 107536 bytes, for which 211 blocks are reserved at the end of the disk. */
  lemma ReservedSize()
    ensures RESERVE == 107536 && RESERVE_BLOCKS == 211 && SYSTEM == 32557 && RESERVE <= 512 * RESERVE_BLOCKS
    ensures SYSTEM + RESERVE_BLOCKS == NUM_BLOCKS
  {
  }

  // ---------------------------------------------------------------- integers in memory

  /** The n low bytes of x, little endian. */
  function Bytes(x: nat, n: nat): (r: seq<byte>)
    ensures |r| == n
  {
    if n == 0 then [] else [x % 256] + Bytes(x / 256, n - 1)
  }

  function Value(b: seq<byte>): nat {
    if b == [] then 0 else b[0] + 256 * Value(b[1..])
  }

  function Power(n: nat): (r: nat)
    ensures r > 0
  {
    if n == 0 then 1 else 256 * Power(n - 1)
  }

  lemma {:induction false} ValueOfBytes(x: nat, n: nat)
    requires x < Power(n)
    ensures Value(Bytes(x, n)) == x
  {
    if n > 0 {
      ValueOfBytes(x / 256, n - 1);
      assert Bytes(x, n)[1..] == Bytes(x / 256, n - 1);
    }
  }

  /** An int in memory: four bytes, two's complement. */
  function IntBytes(x: int32): (r: seq<byte>)
    ensures |r| == 4
  {
    Bytes(if x < 0 then x + 0x1_0000_0000 else x, 4)
  }

  function IntValue(b: seq<byte>): int32
    requires |b| == 4
  {
    var u := Value(b);
    if u < 0x8000_0000 then u else if u < 0x1_0000_0000 then u - 0x1_0000_0000 else 0
  }

  lemma IntRoundTrip(x: int32)
    ensures IntValue(IntBytes(x)) == x
  {
    var u := if x < 0 then x + 0x1_0000_0000 else x;
    assert Power(4) == 0x1_0000_0000 by { assert Power(1) == 256 && Power(2) == 65536 && Power(3) == 16777216; }
    ValueOfBytes(u, 4);
  }

  /** The block begins with KEY. */
  predicate Keyed(b: Block) {
    Value(b[..8]) == KEY
  }

  lemma KeyRoundTrip()
    ensures Value(Bytes(KEY, 8)) == KEY
  {
    assert Power(8) == 0x1_0000_0000_0000_0000 by {
      assert Power(1) == 256 && Power(2) == 65536 && Power(3) == 16777216 && Power(4) == 0x1_0000_0000;
      assert Power(5) == 0x100_0000_0000 && Power(6) == 0x1_0000_0000_0000 && Power(7) == 0x100_0000_0000_0000;
    }
    ValueOfBytes(KEY, 8);
  }

  // ---------------------------------------------------------------- the image

  /** The bytes sfs_destroy copies, in order. */
  function Layout(s: Saved): seq<byte> {
    Bytes(KEY, 8) + s.inodes + s.names + s.used + s.open + IntBytes(s.rootInode) + IntBytes(s.rootBlock)
  }

  /** The n bytes of the disk from the start of block b on. */
  function Run(d: seq<Block>, b: int, n: nat): (r: seq<byte>)
    ensures |r| == n
    ensures forall k :: 0 <= k < n ==> r[k] == Rd(d, b + k / 512)[k % 512]
  {
    seq(n, k requires 0 <= k < n => Rd(d, b + k / 512)[k % 512])
  }

  /** The tables sfs_init finds in an image. */
  function Loaded(c: seq<byte>): Saved
    requires |c| >= RESERVE
  {
    Saved(c[8..8 + INODES],
          c[8 + INODES..8 + INODES + NAMES],
          c[8 + INODES + NAMES..8 + INODES + NAMES + USED],
          c[8 + INODES + NAMES + USED..8 + INODES + NAMES + USED + OPEN],
          IntValue(c[RESERVE - 8..RESERVE - 4]), IntValue(c[RESERVE - 4..RESERVE]))
  }

  /** The offsets of saving and loading agree. */
  lemma LayoutRoundTrip(s: Saved, c: seq<byte>)
    requires Sized(s) && |c| >= RESERVE && c[..RESERVE] == Layout(s)
    ensures Loaded(c) == s
  {
    hide Bytes, IntBytes, IntValue;
    IntRoundTrip(s.rootInode);
    IntRoundTrip(s.rootBlock);
    var p1 := Bytes(KEY, 8) + s.inodes;
    var p2 := p1 + s.names;
    var p3 := p2 + s.used;
    var p4 := p3 + s.open;
    var p5 := p4 + IntBytes(s.rootInode);
    Part(c, p5, IntBytes(s.rootBlock));
    Part(c, p4, IntBytes(s.rootInode));
    Part(c, p3, s.open);
    Part(c, p2, s.used);
    Part(c, p1, s.names);
    Part(c, Bytes(KEY, 8), s.inodes);
  }

  lemma Part(c: seq<byte>, before: seq<byte>, part: seq<byte>)
    requires before + part <= c
    ensures before <= c && c[|before|..|before| + |part|] == part
  {
    assert before <= before + part;
  }

  /** The last block that begins with KEY, or 0: the scan stops before block 0 and starts past the end of the disk. */
  function LastKey(d: seq<Block>, from: nat): (b: nat)
    ensures b <= from && (b > 0 ==> Keyed(Rd(d, b)))
    ensures forall c :: b < c <= from ==> !Keyed(Rd(d, c))
  {
    if from == 0 then 0 else if Keyed(Rd(d, from)) then from else LastKey(d, from - 1)
  }

  /** What unmounting does to the disk: the image is in place, and no block outside the reserved ones changed. */
  predicate Unmounted(d: seq<Block>, system: int, s: Saved, d': seq<Block>) {
    && |d'| == |d|
    && Run(d', system, RESERVE) == Layout(s)
    && (forall b :: 0 <= b < |d| && !(system <= b < system + RESERVE_BLOCKS) ==> d'[b] == d[b])
  }

  lemma ZeroesNotKeyed()
    ensures !Keyed(Zeroes())
  {
    AllZero(Zeroes()[..8]);
  }

  lemma {:induction false} AllZero(b: seq<byte>)
    requires forall i :: 0 <= i < |b| ==> b[i] == 0
    ensures Value(b) == 0
  {
    if b != [] {
      AllZero(b[1..]);
    }
  }

  lemma ImageKeyed(d: seq<Block>, system: int, s: Saved)
    requires Run(d, system, RESERVE) == Layout(s)
    ensures Keyed(Rd(d, system))
  {
    hide Bytes, IntBytes, Value;
    KeyRoundTrip();
    forall k | 0 <= k < 8
      ensures Rd(d, system)[k] == Bytes(KEY, 8)[k]
    {
      assert Run(d, system, RESERVE)[k] == Layout(s)[k];
      assert k / 512 == 0 && k % 512 == k;
    }
    assert Rd(d, system)[..8] == Bytes(KEY, 8);
  }

  lemma {:induction false} BytesOfValue(b: seq<byte>)
    ensures Value(b) < Power(|b|) && Bytes(Value(b), |b|) == b
  {
    if b != [] {
      BytesOfValue(b[1..]);
      assert Value(b) % 256 == b[0] && Value(b) / 256 == Value(b[1..]);
      assert b == [b[0]] + b[1..];
    }
  }

  /** A block is keyed if and only if it begins with the bytes of KEY. */
  lemma KeyedIff(b: Block)
    ensures Keyed(b) <==> b[..8] == Bytes(KEY, 8)
  {
    hide Bytes, Value;
    KeyRoundTrip();
    BytesOfValue(b[..8]);
  }

  /** Block i of the image. */
  predicate PieceKeyed(s: Saved, i: int)
    requires 0 <= i < RESERVE_BLOCKS && Sized(s)
  {
    LayoutSize(s);
    Layout(s)[512 * i..512 * i + 8] == Bytes(KEY, 8)
  }

  lemma LayoutSize(s: Saved)
    requires Sized(s)
    ensures |Layout(s)| == RESERVE
  {
    hide Bytes, IntBytes;
  }

  lemma PieceOnDisk(d: seq<Block>, system: nat, s: Saved, i: int)
    requires |d| == NUM_BLOCKS && Sized(s) && system <= SYSTEM && Run(d, system, RESERVE) == Layout(s) && 0 <= i < RESERVE_BLOCKS
    ensures Keyed(d[system + i]) <==> PieceKeyed(s, i)
  {
    hide Bytes, Keyed, Layout;
    LayoutSize(s);
    KeyedIff(d[system + i]);
    var l, b := Layout(s), d[system + i];
    forall k | 0 <= k < 8
      ensures b[k] == l[512 * i..512 * i + 8][k]
    {
      assert Run(d, system, RESERVE)[512 * i + k] == l[512 * i + k];
      assert (512 * i + k) / 512 == i && (512 * i + k) % 512 == k;
    }
    assert b[..8] == l[512 * i..512 * i + 8];
  }

  /** No later block of the image, and no block after the image, begins with KEY. */
  ghost predicate KeyUnique(d: seq<Block>, system: nat, s: Saved)
    requires |d| == NUM_BLOCKS && Sized(s) && system <= SYSTEM
  {
    && (forall i :: 1 <= i < RESERVE_BLOCKS ==> !PieceKeyed(s, i))
    && (forall b :: system + RESERVE_BLOCKS <= b < NUM_BLOCKS ==> !Keyed(d[b]))
  }

  /** From the tables and the disk before unmounting: the next mount finds the saved block if and only if KEY is unique, and
      then gives back all tables and the roots. */
  lemma RemountIff(d: seq<Block>, system: nat, s: Saved, d': seq<Block>)
    requires |d| == NUM_BLOCKS && Sized(s) && 0 < system <= SYSTEM && Unmounted(d, system, s, d')
    ensures LastKey(d', NUM_BLOCKS) == system <==> KeyUnique(d, system, s)
    ensures LastKey(d', NUM_BLOCKS) == system ==> Loaded(Run(d', system, RESERVE)) == s
  {
    hide Bytes, IntBytes, IntValue, Value, Keyed, Loaded, Layout, PieceKeyed, Run;
    ImageKeyed(d', system, s);
    ZeroesNotKeyed();
    var c := Run(d', system, RESERVE);
    assert c[..RESERVE] == c;
    LayoutRoundTrip(s, c);
    var b := LastKey(d', NUM_BLOCKS);
    forall k | system < k < NUM_BLOCKS
      ensures Keyed(d'[k]) <==> if k < system + RESERVE_BLOCKS then PieceKeyed(s, k - system) else Keyed(d[k])
    {
      if k < system + RESERVE_BLOCKS {
        PieceOnDisk(d', system, s, k - system);
      }
    }
    assert system <= b;
    if b == system {
      LastIsUnique(d, system, s, d');
    } else {
      assert b < NUM_BLOCKS && Keyed(d'[b]);
    }
  }

  lemma LastIsUnique(d: seq<Block>, system: nat, s: Saved, d': seq<Block>)
    requires |d| == |d'| == NUM_BLOCKS && Sized(s) && 0 < system <= SYSTEM && LastKey(d', NUM_BLOCKS) == system
    requires forall k :: system < k < NUM_BLOCKS ==>
               (Keyed(d'[k]) <==> if k < system + RESERVE_BLOCKS then PieceKeyed(s, k - system) else Keyed(d[k]))
    ensures KeyUnique(d, system, s)
  {
    hide Keyed, PieceKeyed;
    forall k | system < k < NUM_BLOCKS
      ensures !Keyed(d'[k])
    {
      assert Rd(d', k) == d'[k];
    }
    forall i | 1 <= i < RESERVE_BLOCKS
      ensures !PieceKeyed(s, i)
    {
      assert !Keyed(d'[system + i]);
    }
  }

  // ---------------------------------------------------------------- the operations

  class Volume {
    const disk: array<Block>
    var tables: Saved
    var system: int

    /** The globals before sfs_init. */
    constructor (d: array<Block>, s: Saved)
      ensures disk == d && tables == s
    {
      disk := d;
      tables := s;
      system := 0;
    }

    static method Copy(buf: array<byte>, pos: nat, src: seq<byte>) returns (after: nat)
      requires pos + |src| <= buf.Length
      modifies buf
      ensures after == pos + |src|
      ensures buf[..pos] == old(buf[..pos]) && buf[..after] == old(buf[..pos]) + src
    {
      for i := 0 to |src|
        invariant buf[..pos] == old(buf[..pos])
        invariant buf[pos..pos + i] == src[..i]
      {
        buf[pos + i] := src[i];
        assert buf[pos..pos + i + 1] == src[..i + 1];
      }
      after := pos + |src|;
    }

    /** Collecting the tables in the buffer (466-484). */
    method Collect(buf: array<byte>)
      requires Sized(tables) && buf.Length == RESERVE_BLOCKS * 512
      modifies buf
      ensures buf[..RESERVE] == Layout(tables)
    {
      hide Bytes, IntBytes;
      var pos := Copy(buf, 0, Bytes(KEY, 8));
      pos := Copy(buf, pos, tables.inodes);
      pos := Copy(buf, pos, tables.names);
      pos := Copy(buf, pos, tables.used);
      pos := Copy(buf, pos, tables.open);
      pos := Copy(buf, pos, IntBytes(tables.rootInode));
      pos := Copy(buf, pos, IntBytes(tables.rootBlock));
    }

    /** sfs_destroy, with a buffer of any contents. */
    method Destroy(buf: array<byte>)
      requires disk.Length == NUM_BLOCKS && 0 < system <= SYSTEM && Sized(tables)
      requires buf.Length == RESERVE_BLOCKS * 512
      modifies buf, disk
      ensures Unmounted(old(disk[..]), system, tables, disk[..])
    {
      hide Layout, Run;
      Collect(buf);
      ghost var c := buf[..];
      WriteImage(buf);
      Blockwise(disk[..], system, c, RESERVE_BLOCKS);
      RunPrefix(disk[..], system);
      assert buf[..RESERVE] == c[..RESERVE];
    }

    /** Writing the image block by block (487-489). */
    method WriteImage(buf: array<byte>)
      requires disk.Length == NUM_BLOCKS && 0 < system <= SYSTEM && buf.Length == RESERVE_BLOCKS * 512
      modifies disk
      ensures Holds(disk[..], system, buf[..], RESERVE_BLOCKS)
      ensures forall b :: 0 <= b < NUM_BLOCKS && !(system <= b < system + RESERVE_BLOCKS) ==> disk[b] == old(disk[b])
    {
      for i := 0 to RESERVE_BLOCKS
        invariant forall k :: 0 <= k < i ==> buf[k * 512..k * 512 + 512] == disk[system + k]
        invariant forall b :: 0 <= b < NUM_BLOCKS && !(system <= b < system + i) ==> disk[b] == old(disk[b])
      {
        disk[system + i] := buf[i * 512..i * 512 + 512];
      }
      forall k | 0 <= k < RESERVE_BLOCKS
        ensures buf[..][k * 512..k * 512 + 512] == Rd(disk[..], system + k)
      {
        assert buf[..][k * 512..k * 512 + 512] == buf[k * 512..k * 512 + 512];
      }
    }

    /** The search for the key (346-360). */
    method FindKey() returns (found: bool)
      requires disk.Length == NUM_BLOCKS
      modifies `system
      ensures var b := LastKey(disk[..], NUM_BLOCKS); found <==> b > 0
      ensures var b := LastKey(disk[..], NUM_BLOCKS); system == if found then b else SYSTEM
    {
      var i := 0;
      while i < NUM_BLOCKS
        invariant 0 <= i <= NUM_BLOCKS
        invariant LastKey(disk[..], NUM_BLOCKS - i) == LastKey(disk[..], NUM_BLOCKS)
      {
        var buf := if NUM_BLOCKS - i < disk.Length then disk[NUM_BLOCKS - i] else Zeroes();
        assert buf == Rd(disk[..], NUM_BLOCKS - i);
        if Value(buf[..8]) == KEY {
          system := NUM_BLOCKS - i;
          return true;
        }
        i := i + 1;
      }
      system := NUM_BLOCKS - RESERVE_BLOCKS;
      found := false;
    }

    /** Reading the blocks of the image into the buffer (367-369). */
    method ReadImage(buf: array<byte>)
      requires disk.Length == NUM_BLOCKS && buf.Length == RESERVE_BLOCKS * 512 && system >= 0
      modifies buf
      ensures buf[..] == Run(disk[..], system, RESERVE_BLOCKS * 512)
    {
      hide Run, Holds;
      assert buf[..0] == [] && Holds(disk[..], system, [], 0) by { NoBlocks(disk[..], system); }
      for i := 0 to RESERVE_BLOCKS
        invariant Holds(disk[..], system, buf[..i * 512], i)
      {
        ghost var before := buf[..i * 512];
        var block := if system + i < disk.Length then disk[system + i] else Zeroes();
        assert block == Rd(disk[..], system + i);
        var _ := Copy(buf, i * 512, block);
        assert buf[..(i + 1) * 512] == before + block;
        OneMoreBlock(disk[..], system, before, i, block);
      }
      assert buf[..RESERVE_BLOCKS * 512] == buf[..];
      Blockwise(disk[..], system, buf[..], RESERVE_BLOCKS);
    }

    /** sfs_init up to the decision to make a new file system (339-394). */
    method Init(buf: array<byte>) returns (newMount: bool)
      requires disk.Length == NUM_BLOCKS && buf.Length == RESERVE_BLOCKS * 512
      modifies this, buf
      ensures newMount <==> LastKey(disk[..], NUM_BLOCKS) == 0
      ensures newMount ==> system == SYSTEM && tables == old(tables)
      ensures !newMount ==> system == LastKey(disk[..], NUM_BLOCKS) && tables == Loaded(Run(disk[..], system, RESERVE))
    {
      hide LastKey, Keyed, Value;
      var found := FindKey();
      newMount := !found;
      if found {
        ReadImage(buf);
        tables := Loaded(buf[..]);
        LoadedPrefix(buf[..]);
        RunPrefix(disk[..], system);
      }
    }
  }

  lemma RunPrefix(d: seq<Block>, b: int)
    ensures Run(d, b, RESERVE_BLOCKS * 512)[..RESERVE] == Run(d, b, RESERVE)
  {
  }

  lemma LoadedPrefix(c: seq<byte>)
    requires |c| >= RESERVE
    ensures Loaded(c) == Loaded(c[..RESERVE])
  {
    hide IntValue;
    var e := c[..RESERVE];
    assert e[8..8 + INODES] == c[8..8 + INODES];
    assert e[8 + INODES..8 + INODES + NAMES] == c[8 + INODES..8 + INODES + NAMES];
    assert e[8 + INODES + NAMES..8 + INODES + NAMES + USED] == c[8 + INODES + NAMES..8 + INODES + NAMES + USED];
    assert e[RESERVE - 8 - OPEN..RESERVE - 8] == c[RESERVE - 8 - OPEN..RESERVE - 8];
    assert e[RESERVE - 8..RESERVE - 4] == c[RESERVE - 8..RESERVE - 4] && e[RESERVE - 4..RESERVE] == c[RESERVE - 4..RESERVE];
  }

  /** The bytes are those of n blocks. */
  predicate Holds(d: seq<Block>, system: int, buf: seq<byte>, n: nat) {
    |buf| == n * 512 && forall k :: 0 <= k < n ==> buf[k * 512..k * 512 + 512] == Rd(d, system + k)
  }

  lemma NoBlocks(d: seq<Block>, system: int)
    ensures Holds(d, system, [], 0)
  {
  }

  lemma OneMoreBlock(d: seq<Block>, system: int, buf: seq<byte>, n: nat, block: Block)
    requires Holds(d, system, buf, n) && block == Rd(d, system + n)
    ensures Holds(d, system, buf + block, n + 1)
  {
    forall k | 0 <= k < n + 1
      ensures (buf + block)[k * 512..k * 512 + 512] == Rd(d, system + k)
    {
      if k < n {
        assert (buf + block)[k * 512..k * 512 + 512] == buf[k * 512..k * 512 + 512];
      }
    }
  }

  lemma Blockwise(d: seq<Block>, system: int, buf: seq<byte>, n: nat)
    requires Holds(d, system, buf, n)
    ensures buf == Run(d, system, n * 512)
  {
    forall k | 0 <= k < |buf|
      ensures Run(d, system, n * 512)[k] == buf[k]
    {
      var i := k / 512;
      assert buf[i * 512..i * 512 + 512] == Rd(d, system + i);
      assert k == i * 512 + k % 512;
    }
  }
}
