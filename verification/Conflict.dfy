/** Catching up with transactions that were committed first: which of my blocks
    they have replaced, and how large the file has become. */
module Conflict {
  import opened Layout
  import opened Replay
  import opened LogChain

  const MAX_32: nat := 0xFFFF_FFFF
  const TWO_63: nat := 0x8000_0000_0000_0000

  /* The conflict image. */

  // Whether there is an overlap, and the image after it was taken in.
  datatype Conflict = Conflict(found: bool, image: seq<nat>)

  /** What is promised: entry `k` becomes the block that `first + k` is now mapped
      to, if the extent of `n` blocks from `begin` on covers it. */
  ghost predicate Right(first: nat, begin: nat, lidx: nat, n: nat, image: seq<nat>, c: Conflict)
  {
    && |c.image| == |image|
    && (c.found <==> exists v: nat | first <= v < first + |image| :: Within(begin, n, v))
    && forall k: nat | k < |image| ::
      c.image[k] == if Within(begin, n, first + k) then lidx + (first + k - begin) else image[k]
  }

  /** The last block of the extent, in 32 bits. */
  function LastOf(begin: nat, n: nat): nat { if begin + n == 0 then MAX_32 else begin + n - 1 }

  /** The image of the blocks `first .. first + |image| - 1`, after an extent of
      `n` blocks from `begin` on. */
  method ConflictImage(first: nat, begin: nat, lidx: nat, n: nat, image: seq<nat>) returns (c: Conflict)
    requires image != [] && first + |image| <= MAX_32 && begin + n <= MAX_32
    ensures c == Imaged(first, begin, lidx, n, image)
  {
    var last := first + |image| - 1;
    var leLast := LastOf(begin, n);
    if last < begin || first > leLast { return Conflict(false, image); }
    var lo, hi := Max(begin, first), Min(leLast, last);
    var image', v := image, lo;
    while v <= hi
      invariant lo <= v <= Max(lo, hi + 1) && |image'| == |image|
      invariant forall k | 0 <= k < |image| :: image'[k] == if lo <= first + k < v then lidx + k else image[k]
    {
      var offset := v - first;
      image' := image'[offset := lidx + offset];
      v := v + 1;
    }
    assert image' == Imaged(first, begin, lidx, n, image).image;
    c := Conflict(true, image');
  }

  function Imaged(first: nat, begin: nat, lidx: nat, n: nat, image: seq<nat>): Conflict
  {
    if first + |image| <= begin || first > LastOf(begin, n) then Conflict(false, image)
    else Conflict(true, seq<nat>(|image|, k requires 0 <= k < |image| =>
                    if begin <= first + k <= LastOf(begin, n) then lidx + k else image[k]))
  }

  /** Mine and theirs start at the same block, or do not meet. An empty extent
      must not start at block 0 or inside mine. */
  predicate Comparable(first: nat, count: nat, begin: nat, n: nat)
  {
    if n == 0 then begin > 0 && !(first < begin < first + count)
    else begin == first || first + count <= begin || begin + n <= first
  }

  /** The image is right exactly for comparable extents. */
  lemma RightIff(first: nat, begin: nat, lidx: nat, n: nat, image: seq<nat>)
    requires image != [] && first + |image| <= MAX_32 && begin + n <= MAX_32
    ensures Right(first, begin, lidx, n, image, Imaged(first, begin, lidx, n, image)) <==>
              Comparable(first, |image|, begin, n)
  {
    var c := Imaged(first, begin, lidx, n, image);
    forall v: nat | first <= v < first + |image| ensures Within(begin, n, v) ==>
        n > 0 && begin <= v <= LastOf(begin, n) {}
    if n > 0 && first < begin + n && begin < first + |image| {
      var k: nat := if begin < first then 0 else begin - first;
      assert Within(begin, n, first + k);
      if Right(first, begin, lidx, n, image, c) {
        assert c.image[k] == lidx + (first + k - begin);
      }
    }
  }

  /** Three blocks of mine, the second of which somebody else has mapped to block 50:
      the image says 51. */
  method WrongImage() returns (c: Conflict)
    ensures c.found && c.image == [7, 51, 9] && !Right(0, 1, 50, 1, [7, 8, 9], c)
  {
    RightIff(0, 1, 50, 1, [7, 8, 9]);
    c := ConflictImage(0, 1, 50, 1, [7, 8, 9]);
    assert c.image == [7, 51, 9];
  }

  /** Extents of one block are always comparable. */
  lemma OneBlockIsComparable(first: nat, begin: nat)
    ensures Comparable(first, 1, begin, 1)
  {
  }

  /* The file size. */

  /** The end of the file that a scan reads off a log entry: the blocks of the
      last chunk are counted as `numBlocks % 64`, and the difference is taken in
      64 bits. */
  function Estimate(e: LogEntry): nat
  {
    ((e.beginVidx + CHUNK * (ChunksFor(e.numBlocks) - 1) + e.numBlocks % CHUNK) * BLOCK_SIZE - e.leftover) % TWO_64
  }

  /** An entry for the first 64 blocks of the file that does not fill the last
      one: its end is taken for a number before the start of the file. */
  predicate Wraps(e: LogEntry) { e.beginVidx == 0 && e.numBlocks == CHUNK && e.leftover > 0 }

  /** A log entry within the limits of its fields, in a file below 2^63 bytes. */
  predicate InLimits(e: LogEntry)
  {
    e.numBlocks > 0 && e.leftover < BLOCK_SIZE && (e.beginVidx + e.numBlocks) * BLOCK_SIZE < TWO_63
  }

  lemma EstimateIs(e: LogEntry)
    requires InLimits(e)
    ensures !Wraps(e) && e.numBlocks % CHUNK != 0 ==> Estimate(e) == EntryEnd(e)
    ensures !Wraps(e) && e.numBlocks % CHUNK == 0 ==> Estimate(e) == EntryEnd(e) - CHUNK * BLOCK_SIZE
    ensures Wraps(e) ==> Estimate(e) == TWO_64 - e.leftover
  {
    var blocks := e.beginVidx + CHUNK * (ChunksFor(e.numBlocks) - 1) + e.numBlocks % CHUNK;
    var end := blocks * BLOCK_SIZE - e.leftover;
    assert blocks == if e.numBlocks % CHUNK == 0 then e.beginVidx + e.numBlocks - CHUNK else e.beginVidx + e.numBlocks;
    if Wraps(e) {
      assert end == 0 - e.leftover;
    } else {
      assert 0 <= end < TWO_64;
    }
  }

  /** The entries of a chain are sorted: the last one ends last. */
  ghost predicate ScanOk(tx: Tx)
    requires TxOk(tx)
  {
    match tx
    case InlineTx(n, v, _) => n > 0 || v == 0
    case ChainTx(es) => forall i | 0 <= i < |es| :: InLimits(es[i]) && EntryEnd(es[i]) <= EntryEnd(es[|es| - 1])
  }

  /** A size that the scan reads off a transaction. */
  ghost predicate ReadsOff(tx: Tx, end: nat)
  {
    match tx
    case InlineTx(n, v, _) => end == (v + n) * BLOCK_SIZE
    case ChainTx(es) => exists i | 0 <= i < |es| :: end == Estimate(es[i])
  }

  ghost predicate WrapsIn(tx: Tx) { tx.ChainTx? && exists i | 0 <= i < |tx.entries| :: Wraps(tx.entries[i]) }

  /** The size after the scan of one transaction. */
  method ScanTx(size: nat, tx: Tx) returns (size': nat)
    requires TxOk(tx) && ScanOk(tx)
    ensures size <= size'
    ensures !WrapsIn(tx) ==> size' <= Grow(size, TxEnd(tx))
    ensures WrapsIn(tx) ==> size' >= TWO_63
    ensures tx.InlineTx? ==> size' == Grow(size, TxEnd(tx))
    ensures tx.ChainTx? && !WrapsIn(tx) && tx.entries[|tx.entries| - 1].numBlocks % CHUNK != 0 ==>
        size' == Grow(size, TxEnd(tx))
    ensures (forall end: nat | ReadsOff(tx, end) :: end <= size') && (size' == size || ReadsOff(tx, size'))
  {
    size' := size;
    match tx {
      case InlineTx(n, v, _) =>
        var possible := (v + n) * BLOCK_SIZE;
        if possible > size' { size' := possible; }
      case ChainTx(es) =>
        for i := 0 to |es|
          invariant size <= size'
          invariant (forall k | 0 <= k < i :: !Wraps(es[k])) ==> size' <= Grow(size, EntryEnd(es[|es| - 1]))
          invariant forall k | 0 <= k < i ::
              (Wraps(es[k]) ==> size' >= TWO_63) && (es[k].numBlocks % CHUNK != 0 ==> size' >= EntryEnd(es[k]))
          invariant (forall k | 0 <= k < i :: Estimate(es[k]) <= size') && (size' == size || ReadsOff(tx, size'))
        {
          EstimateIs(es[i]);
          var possible := Estimate(es[i]);
          if possible > size' { size' := possible; }
        }
    }
  }

  /** The scan reads the size `end` off the transaction, and it is right. */
  ghost predicate Decides(tx: Tx, end: nat)
    requires TxOk(tx)
  {
    match tx
    case InlineTx(_, _, _) => end == TxEnd(tx)
    case ChainTx(es) => exists i | 0 <= i < |es| :: end == EntryEnd(es[i]) && es[i].numBlocks % CHUNK != 0
  }

  ghost predicate NoneWraps(txs: seq<Tx>, n: nat)
    requires n <= |txs|
  {
    forall i | 0 <= i < n :: !WrapsIn(txs[i])
  }

  lemma NoneWrapsNext(txs: seq<Tx>, n: nat)
    requires n < |txs|
    ensures NoneWraps(txs, n + 1) <==> NoneWraps(txs, n) && !WrapsIn(txs[n])
  {
  }

  /** `size'` is the largest of `size` and the sizes read off the first `n` transactions. */
  ghost predicate LargestRead(txs: seq<Tx>, n: nat, size: nat, size': nat)
    requires n <= |txs|
  {
    && size <= size' && (forall i, end: nat | 0 <= i < n && ReadsOff(txs[i], end) :: end <= size')
    && (size' == size || exists i | 0 <= i < n :: ReadsOff(txs[i], size'))
  }

  lemma LargestNext(txs: seq<Tx>, n: nat, size: nat, before: nat, size': nat)
    requires n < |txs| && LargestRead(txs, n, size, before) && before <= size'
    requires (forall end: nat | ReadsOff(txs[n], end) :: end <= size') && (size' == before || ReadsOff(txs[n], size'))
    ensures LargestRead(txs, n + 1, size, size')
  {
  }

  /** The size after the scan of all transactions in the log: the largest that it reads
      off them, and not below the one before. It is never too large exactly if none of
      them is an entry that wraps, and right exactly if, besides, some transaction that
      ends the file ends it with an entry whose count is no multiple of 64, or the file
      has not grown. */
  method Scan(size: nat, txs: seq<Tx>) returns (size': nat)
    requires HistoryOk(txs) && (forall i | 0 <= i < |txs| :: ScanOk(txs[i])) && SizeFrom(txs, size) < TWO_63
    ensures LargestRead(txs, |txs|, size, size')
    ensures size' <= SizeFrom(txs, size) <==> NoneWraps(txs, |txs|)
    ensures size' == SizeFrom(txs, size) <==>
              && NoneWraps(txs, |txs|)
              && (size == SizeFrom(txs, size) || exists i | 0 <= i < |txs| :: Decides(txs[i], SizeFrom(txs, size)))
  {
    size' := size;
    for i := 0 to |txs|
      invariant LargestRead(txs, i, size, size')
      invariant if NoneWraps(txs, i) then size' <= SizeFrom(txs[..i], size) else size' >= TWO_63
    {
      assert txs[..i + 1][..i] == txs[..i];
      ghost var before := size';
      size' := ScanTx(size', txs[i]);
      LargestNext(txs, i, size, before, size');
      NoneWrapsNext(txs, i);
    }
    assert txs[..|txs|] == txs;
    if NoneWraps(txs, |txs|) { ExactIff(size, txs, size'); }
  }

  lemma {:induction false} SizeCovers(txs: seq<Tx>, size: nat, i: nat)
    requires HistoryOk(txs) && i < |txs|
    ensures TxEnd(txs[i]) <= SizeFrom(txs, size)
  {
    if i < |txs| - 1 { SizeCovers(txs[..|txs| - 1], size, i); }
  }

  lemma ExactIff(size: nat, txs: seq<Tx>, size': nat)
    requires HistoryOk(txs) && (forall i | 0 <= i < |txs| :: ScanOk(txs[i])) && NoneWraps(txs, |txs|)
    requires size' <= SizeFrom(txs, size) && LargestRead(txs, |txs|, size, size')
    ensures size' == SizeFrom(txs, size) <==>
              size == SizeFrom(txs, size) || exists i | 0 <= i < |txs| :: Decides(txs[i], SizeFrom(txs, size))
  {
    var end := SizeFrom(txs, size);
    if i :| 0 <= i < |txs| && Decides(txs[i], end) {
      DecidesIsRead(txs[i], end);
      assert ReadsOff(txs[i], end);
    }
    if size' == end && size != end {
      var i :| 0 <= i < |txs| && ReadsOff(txs[i], end);
      SizeCovers(txs, size, i);
      ReadDecides(txs[i], end);
    }
  }

  lemma DecidesIsRead(tx: Tx, end: nat)
    requires TxOk(tx) && ScanOk(tx) && !WrapsIn(tx) && Decides(tx, end)
    ensures ReadsOff(tx, end)
  {
    if tx.ChainTx? {
      var i :| 0 <= i < |tx.entries| && end == EntryEnd(tx.entries[i]) && tx.entries[i].numBlocks % CHUNK != 0;
      EstimateIs(tx.entries[i]);
    }
  }

  lemma ReadDecides(tx: Tx, end: nat)
    requires TxOk(tx) && ScanOk(tx) && !WrapsIn(tx) && ReadsOff(tx, end) && TxEnd(tx) <= end
    ensures Decides(tx, end)
  {
    if tx.ChainTx? {
      var i :| 0 <= i < |tx.entries| && end == Estimate(tx.entries[i]);
      EstimateIs(tx.entries[i]);
      assert !Wraps(tx.entries[i]);
    }
  }

  /** A file of 64 full blocks, written at once: the scan does not notice. */
  method ShortScan() returns (size': nat)
    ensures size' == 0 < SizeFrom([ChainTx([LogEntry(0, CHUNK, [7], 0)])], 0) == CHUNK * BLOCK_SIZE
  {
    var e := LogEntry(0, CHUNK, [7], 0);
    var txs := [ChainTx([e])];
    ShortSize(e);
    size' := Scan(0, txs);
  }

  lemma {:induction false} ShortSize(e: LogEntry)
    requires e == LogEntry(0, CHUNK, [7], 0)
    ensures Estimate(e) == 0 && HistoryOk([ChainTx([e])]) && SizeFrom([ChainTx([e])], 0) == CHUNK * BLOCK_SIZE
  {
    var txs := [ChainTx([e])];
    assert txs[..0] == [] && TxEnd(txs[0]) == EntryEnd(e);
    assert SizeFrom(txs, 0) == Grow(SizeFrom(txs[..0], 0), TxEnd(txs[0]));
  }

  /** The entries that a write appends are sorted. */
  lemma {:induction false} PiecesSorted(room: nat, v: nat, n: nat, lidxs: seq<nat>, leftover: nat, i: nat)
    requires room > 0 && n > 0 && |lidxs| == ChunksFor(n) && leftover < BLOCK_SIZE
    requires (v + n) * BLOCK_SIZE < TWO_63 && i < |Pieces(room, v, n, lidxs, leftover)|
    ensures InLimits(Pieces(room, v, n, lidxs, leftover)[i])
    ensures EntryEnd(Pieces(room, v, n, lidxs, leftover)[i]) <= (v + n) * BLOCK_SIZE - leftover
    decreases n
  {
    if ChunksFor(n) > room && i > 0 {
      PiecesSorted(AVAIL_MAX, v + CHUNK * room, n - CHUNK * room, lidxs[room..], leftover, i - 1);
    }
  }

  /** A write of 64 blocks less a byte to an empty file makes such an entry. */
  lemma WrappingWrite()
    ensures Leftover(CHUNK * BLOCK_SIZE - 1, 0) == 1
    ensures Pieces(AVAIL_MAX, 0, CHUNK, [7], 1) == [LogEntry(0, CHUNK, [7], 1)]
        && WrapsIn(ChainTx(Pieces(AVAIL_MAX, 0, CHUNK, [7], 1)))
  {
    var es := [LogEntry(0, CHUNK, [7], 1)];
    assert Pieces(AVAIL_MAX, 0, CHUNK, [7], 1) == es;
    assert Wraps(es[0]);
  }
}
