/** The block-count expressions of sfs_read and sfs_write, evaluated as the C compiler does:
    `size_t` arithmetic modulo 2^64, then narrowed to a 32-bit `int`
    (asst3/assignment3/src/sfs.c:809-812, 864-865, 889-892). */
module BlockCount {

  /** Unsigned 64-bit arithmetic (section 6.2.5 of C11). */
  function Wrap64(x: int): (r: int)
    ensures 0 <= r < 0x1_0000_0000_0000_0000
  {
    x % 0x1_0000_0000_0000_0000
  }

  /** Conversion to a 32-bit `int` (section 6.3.1.3 of C11, modulo 2^32 under GCC). */
  function ToInt32(x: int): int {
    var u := x % 0x1_0000_0000;
    if u >= 0x8000_0000 then u - 0x1_0000_0000 else u
  }

  /** The number of 512-byte blocks that hold x bytes. */
  function BlocksFor(x: int): (n: int)
    ensures x <= 512 * n < x + 512
  {
    (x + 511) / 512
  }

  /** `read_blocks` (809-812) and `write_blocks` (889-892). */
  function SpanExpr(offset: int, size: int): int {
    var bo := offset % 512;
    var first := if bo != 0 then 1 else 0;
    var full := Wrap64(size - (if bo != 0 then 512 - bo else 0)) / 512;
    var last := if Wrap64(offset + size) % 512 != 0 then 1 else 0;
    ToInt32(Wrap64(first + full + last))
  }

  /** `blocks_needed` (865). */
  function GrowthExpr(offset: int, size: int, stSize: int): int {
    ToInt32(Wrap64(Wrap64(offset + size) / 512 - stSize / 512 - (if stSize % 512 != 0 then 1 else 0)
                   + (if Wrap64(offset + size) % 512 != 0 then 1 else 0)))
  }

  /** The test that decides whether the file must grow (864). */
  predicate MustGrow(offset: int, size: int, stSize: int) {
    Wrap64(offset + size) > Wrap64((stSize / 512 + (if stSize % 512 != 0 then 1 else 0)) * 512)
  }

  lemma WrapSmall(x: int)
    requires -0x1_0000_0000_0000_0000 <= x < 0x1_0000_0000_0000_0000
    ensures Wrap64(x) == if x < 0 then x + 0x1_0000_0000_0000_0000 else x
  {
  }

  /** Wrapping and narrowing a value keeps it exactly when it fits an int. */
  lemma Narrow(x: int)
    requires -0x8000_0000_0000_0000 <= x < 0x8000_0000_0000_0000
    ensures ToInt32(Wrap64(x)) == x <==> -0x8000_0000 <= x < 0x8000_0000
  {
    WrapSmall(x);
    var q, r := x / 0x1_0000_0000, x % 0x1_0000_0000;
    assert x + 0x1_0000_0000_0000_0000 == (q + 0x1_0000_0000) * 0x1_0000_0000 + r;
    assert (x + 0x1_0000_0000_0000_0000) % 0x1_0000_0000 == r;
  }

  lemma CeilBySplit(x: int)
    requires 0 <= x
    ensures BlocksFor(x) == x / 512 + (if x % 512 != 0 then 1 else 0)
  {
  }

  /** The span expression counts the blocks that bytes [offset, offset + size) touch, even when the
      subtraction in it wraps below zero; it stops being right exactly when the count no longer fits an int. */
  lemma SpanIsCeil(offset: int, size: int)
    requires 0 <= offset && 0 <= size && offset + size < 0x8000_0000_0000_0000
    ensures SpanExpr(offset, size) == BlocksFor(offset % 512 + size) <==> BlocksFor(offset % 512 + size) < 0x8000_0000
  {
    var bo := offset % 512;
    WrapSmall(offset + size);
    SameRemainder(offset, size);
    if bo != 0 && size < 512 - bo {
      SpanWraps(bo, size);
    } else {
      var full := size - (if bo != 0 then 512 - bo else 0);
      WrapSmall(full);
      SpanNoWrap(bo, size);
      Narrow(BlocksFor(bo + size));
    }
  }

  lemma SameRemainder(offset: int, size: int)
    requires 0 <= offset && 0 <= size
    ensures (offset + size) % 512 == (offset % 512 + size) % 512
  {
    assert offset + size == 512 * (offset / 512) + (offset % 512 + size);
  }

  /** A request inside one block: the subtraction underflows to 2^64 - k, whose quotient narrows to -1. */
  lemma SpanWraps(bo: int, size: int)
    requires 0 < bo < 512 && 0 <= size < 512 - bo
    ensures Wrap64(size - (512 - bo)) / 512 == 0x80_0000_0000_0000 - 1
    ensures (bo + size) % 512 != 0 && BlocksFor(bo + size) == 1
    ensures ToInt32(Wrap64(1 + (0x80_0000_0000_0000 - 1) + 1)) == 1
  {
    WrapSmall(size - (512 - bo));
    WrapSmall(1 + (0x80_0000_0000_0000 - 1) + 1);
  }

  lemma SpanNoWrap(bo: int, size: int)
    requires 0 <= bo < 512 && 0 <= size && (bo == 0 || size >= 512 - bo)
    ensures BlocksFor(bo + size) == (if bo != 0 then 1 else 0) + (size - (if bo != 0 then 512 - bo else 0)) / 512
                                 + (if (bo + size) % 512 != 0 then 1 else 0)
  {
    var rest := size - (if bo != 0 then 512 - bo else 0);
    assert bo + size == rest + (if bo != 0 then 512 else 0);
    CeilBySplit(bo + size);
  }

  /** The growth expression is the number of blocks to add, exactly when that number fits an int. */
  lemma GrowthIsDifference(offset: int, size: int, stSize: int)
    requires 0 <= offset && 0 <= size && 0 <= stSize
    requires offset + size < 0x8000_0000_0000_0000 && stSize < 0x8000_0000_0000_0000
    ensures var more := BlocksFor(offset + size) - BlocksFor(stSize);
            GrowthExpr(offset, size, stSize) == more <==> -0x8000_0000 <= more < 0x8000_0000
  {
    WrapSmall(offset + size);
    CeilBySplit(offset + size);
    CeilBySplit(stSize);
    Narrow(BlocksFor(offset + size) - BlocksFor(stSize));
  }

  /** The resize test asks whether the write ends beyond the last block. */
  lemma MustGrowIffMoreBlocks(offset: int, size: int, stSize: int)
    requires 0 <= offset && 0 <= size && 0 <= stSize
    requires offset + size < 0x8000_0000_0000_0000 && stSize < 0x8000_0000_0000_0000
    ensures MustGrow(offset, size, stSize) <==> BlocksFor(offset + size) > BlocksFor(stSize)
  {
    CeilBySplit(stSize);
    WrapSmall(offset + size);
    WrapSmall(BlocksFor(stSize) * 512);
  }

  /** The blocks before the one that holds `offset`, and those touched from there. */
  lemma SpanEnd(offset: int, size: int)
    requires 0 <= offset && 0 <= size
    ensures offset / 512 + BlocksFor(offset % 512 + size) == BlocksFor(offset + size)
  {
    assert offset + size + 511 == 512 * (offset / 512) + (offset % 512 + size + 511);
  }

  lemma BlocksMonotone(x: int, y: int)
    requires 0 <= x <= y
    ensures BlocksFor(x) <= BlocksFor(y)
  {
  }
}
