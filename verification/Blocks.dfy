/** The disk as blocks of bytes, and the view of a block as an array of shorts
    (asst3/assignment3/src/block.c, and the casts to `short *` in sfs.c). */
module Blocks {

  type byte = x: int | 0 <= x < 256

  /** A C `short`: two bytes, little endian, two's complement. */
  type short = x: int | -32768 <= x < 32768

  /** BLOCK_SIZE is 512. */
  type Block = b: seq<byte> | |b| == 512 witness seq(512, i => 0)

  /** NUM_BLOCKS in sfs.c. */
  const NUM_BLOCKS: nat := 32768

  function Zeroes(): (b: Block)
    ensures forall k :: 0 <= k < 512 ==> b[k] == 0
  {
    seq(512, i => 0)
  }

  /** `((short *)buf)[j]` */
  function ShortAt(b: Block, j: int): short
    requires 0 <= j < 256
  {
    var lo: int, hi: int := b[2 * j], b[2 * j + 1];
    var u := lo + 256 * hi;
    if u >= 32768 then u - 65536 else u
  }

  /** `((short *)buf)[j] = v` */
  function PutShort(b: Block, j: int, v: short): Block
    requires 0 <= j < 256
  {
    var u := if v < 0 then v + 65536 else v;
    b[2 * j := u % 256][2 * j + 1 := u / 256]
  }

  /** The low byte comes first, and the high byte carries the sign. */
  lemma LittleEndian(b: Block, j: int)
    requires 0 <= j < 256
    ensures (ShortAt(b, j) - b[2 * j]) % 256 == 0 && -0x8000 <= ShortAt(b, j) < 0x8000
    ensures b[2 * j + 1] < 128 ==> ShortAt(b, j) == b[2 * j] as int + 256 * b[2 * j + 1] as int
    ensures b[2 * j + 1] >= 128 ==> ShortAt(b, j) == b[2 * j] as int + 256 * b[2 * j + 1] as int - 0x1_0000
  {
  }

  lemma PutGet(b: Block, j: int, v: short)
    requires 0 <= j < 256
    ensures ShortAt(PutShort(b, j, v), j) == v
    ensures forall k :: 0 <= k < 256 && k != j ==> ShortAt(PutShort(b, j, v), k) == ShortAt(b, k)
  {
  }

  /** The block `block_read` delivers: zeroes when the read fails (block.c:44-55). */
  function Rd(d: seq<Block>, b: int): Block {
    if 0 <= b < |d| then d[b] else Zeroes()
  }

  /** The first n shorts of a block are negative: n unused index entries. */
  ghost predicate AllNegative(b: Block, n: nat)
    requires n <= 256
  {
    forall j :: 0 <= j < n ==> ShortAt(b, j) < 0
  }

  /** The loop that stores -1 in the first n entries of an index buffer (sfs.c:201-203, 213-215, 224-226). */
  method FillNegative(b: Block, n: nat) returns (r: Block)
    requires n <= 256
    ensures AllNegative(r, n) && forall j :: 0 <= j < n ==> ShortAt(r, j) == -1
    ensures forall j :: n <= j < 256 ==> ShortAt(r, j) == ShortAt(b, j)
  {
    r := b;
    for i := 0 to n
      invariant forall j :: 0 <= j < i ==> ShortAt(r, j) == -1
      invariant forall j :: i <= j < 256 ==> ShortAt(r, j) == ShortAt(b, j)
    {
      PutGet(r, i, -1);
      r := PutShort(r, i, -1);
    }
  }
}
