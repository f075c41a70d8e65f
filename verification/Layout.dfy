/** Sizes and alignment arithmetic shared by every component. */
module Layout {

  type Byte = bv8

  // Bytes in a block.
  const BLOCK_SIZE: nat := 4096
  // Blocks covered by one bitmap word, and by one element of a log entry's `begin_lidxs`.
  const CHUNK: nat := 64
  // Transaction slots in the meta block and in a transaction block.
  const META_SLOTS: nat := 496
  const TX_SLOTS: nat := 510
  // Longest extent an inline transaction entry can hold.
  const INLINE_MAX: nat := 63

  // Blocks by which the file and its mapping grow.
  const GROW: nat := 512

  const TWO_64: nat := 0x1_0000_0000_0000_0000

  /** A run of blocks lies in one piece of the mapping: the first piece has `first`
      blocks, every later one `GROW`. */
  predicate InOnePiece(first: nat, begin: nat, len: nat)
  {
    len == 0 || begin + len <= first || begin / GROW == (begin + len - 1) / GROW
  }

  function Max(a: nat, b: nat): nat { if a < b then b else a }

  function Min(a: nat, b: nat): nat { if a < b then a else b }

  /** The smallest power of two greater than `x`. */
  function NextPow2(x: nat): (r: nat)
    ensures x < r
  {
    if x == 0 then 1 else 2 * NextPow2(x / 2)
  }

  /** The number of blocks needed to cover `n` bytes. */
  function BlocksFor(n: nat): nat { (n + BLOCK_SIZE - 1) / BLOCK_SIZE }

  function AlignUp(n: nat): nat { BlocksFor(n) * BLOCK_SIZE }

  function AlignDown(n: nat): nat { n / BLOCK_SIZE * BLOCK_SIZE }

  /** The number of `begin_lidxs` elements needed to map `n` blocks. */
  function ChunksFor(n: nat): nat { (n + CHUNK - 1) / CHUNK }

  /** Bytes of the last block that a write ending at `end` leaves outside the
      file, as decided by a writer that believes the file has `size` bytes. */
  function Leftover(end: nat, size: nat): nat
  {
    var left := AlignUp(end) - end;
    if left > 0 && end <= AlignDown(size) then 0 else left
  }

  /** What `Leftover` can be, whichever earlier size it was computed from. */
  predicate LeftoverOk(left: nat, end: nat, size: nat)
  {
    left == AlignUp(end) - end || (left == 0 && end <= AlignDown(size))
  }

  lemma LeftoverMono(left: nat, end: nat, size: nat, now: nat)
    requires LeftoverOk(left, end, size) && size <= now
    ensures LeftoverOk(left, end, now)
  {
  }

  /** The file-size law: an entry prepared when the writer knew of a file of
      `size` bytes extends any file that has grown since to exactly the larger of
      the two ends. */
  lemma SizeLaw(left: nat, end: nat, size: nat, now: nat)
    requires LeftoverOk(left, end, size) && size <= now
    ensures Max(now, AlignUp(end) - left) == Max(now, end)
  {
  }
}
