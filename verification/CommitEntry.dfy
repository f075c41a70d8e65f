/** The entry that a write commits, from its preparation to its commit: it may be
    rechecked any number of times while other writers let the file grow. */
module CommitEntry {
  import opened Layout
  import opened Replay
  import opened LogChain

  // `inlined` says which encoding is to be committed; `leftover` is what the log
  // entries say, if it is not inline.
  datatype Prepared = Prepared(inlined: bool, leftover: nat)

  /** `prepare_commit_entry`, for a writer that knows of a file of `size` bytes;
      `fits` says that the extent fits an inline entry. */
  function Prepare(end: nat, fits: bool, size: nat): Prepared
  {
    var left := Leftover(end, size);
    Prepared(fits && left == 0, left)
  }

  /** `recheck_commit_entry`, when the file has been seen to have `size` bytes. */
  function Recheck(p: Prepared, end: nat, fits: bool, size: nat): Prepared
  {
    if p.inlined then p
    else
      var left := Leftover(end, size);
      if left == p.leftover then p
      else if fits && left == 0 then Prepared(true, 0)
      else Prepared(false, left)
  }

  /** Prepared at the first of `sizes`, rechecked at the others. */
  function After(end: nat, fits: bool, sizes: seq<nat>): Prepared
    requires sizes != []
  {
    if |sizes| == 1 then Prepare(end, fits, sizes[0])
    else Recheck(After(end, fits, sizes[..|sizes| - 1]), end, fits, sizes[|sizes| - 1])
  }

  /** The transaction that is committed for `n` blocks from `begin` on. */
  function TxOf(p: Prepared, room: nat, begin: nat, n: nat, lidxs: seq<nat>): Tx
    requires room > 0 && n > 0 && |lidxs| == ChunksFor(n)
  {
    if p.inlined then InlineTx(n, begin, lidxs[0]) else ChainTx(Pieces(room, begin, n, lidxs, p.leftover))
  }

  ghost predicate Grows(sizes: seq<nat>) { forall i, k | 0 <= i < k < |sizes| :: sizes[i] <= sizes[k] }

  lemma {:induction false} AfterOk(end: nat, fits: bool, sizes: seq<nat>)
    requires sizes != [] && Grows(sizes)
    ensures var p := After(end, fits, sizes);
            LeftoverOk(p.leftover, end, sizes[|sizes| - 1]) && (p.inlined ==> fits && p.leftover == 0)
  {
    if |sizes| > 1 {
      var init := sizes[..|sizes| - 1];
      AfterOk(end, fits, init);
      LeftoverMono(After(end, fits, init).leftover, end, init[|init| - 1], sizes[|sizes| - 1]);
    }
  }

  /** However often it was rechecked, it is the entry that would be prepared now. */
  lemma {:induction false} RecheckedIsFresh(end: nat, fits: bool, sizes: seq<nat>)
    requires sizes != [] && Grows(sizes)
    ensures After(end, fits, sizes) == Prepare(end, fits, sizes[|sizes| - 1])
  {
    if |sizes| > 1 {
      var init := sizes[..|sizes| - 1];
      RecheckedIsFresh(end, fits, init);
      assert init[|init| - 1] <= sizes[|sizes| - 1];
    }
  }

  /** Both encodings mean the same. */
  lemma TxMeans(p: Prepared, room: nat, begin: nat, n: nat, lidxs: seq<nat>, w: nat, before: nat)
    requires room > 0 && n > 0 && |lidxs| == ChunksFor(n) && (p.inlined ==> n <= INLINE_MAX && p.leftover == 0)
    ensures var tx := TxOf(p, room, begin, n, lidxs); TxOk(tx) && TxEnd(tx) == (begin + n) * BLOCK_SIZE - p.leftover
    ensures Within(begin, n, w) ==> (w - begin) / CHUNK < |lidxs|
    ensures UnderTx(TxOf(p, room, begin, n, lidxs), w, before)
        == if Within(begin, n, w) then ChunkBlock(lidxs, w - begin) else before
  {
    PiecesMeaning(room, begin, n, lidxs, p.leftover, w, before);
    if Within(begin, n, w) { ChunkIndex(w - begin, n); }
  }

  /** The file-size law: whatever sizes the writer saw, and in whatever encoding
      the entry is committed at last, replaying it makes the file as large as the
      larger of its size at that time and the end of the write, and maps the
      write's blocks, and no others, to the new ones. */
  lemma {:induction false} FileSizeLaw(end: nat, begin: nat, n: nat, fits: bool, sizes: seq<nat>, now: nat,
                                       room: nat, lidxs: seq<nat>, w: nat, before: nat)
    requires n > 0 && begin + n == BlocksFor(end) && room > 0 && |lidxs| == ChunksFor(n)
    requires sizes != [] && Grows(sizes) && sizes[|sizes| - 1] <= now && (fits ==> n <= INLINE_MAX)
    ensures var tx := TxOf(After(end, fits, sizes), room, begin, n, lidxs);
            && TxOk(tx) && Grow(now, TxEnd(tx)) == Max(now, end)
            && (Within(begin, n, w) ==> (w - begin) / CHUNK < |lidxs|)
            && UnderTx(tx, w, before) == if Within(begin, n, w) then ChunkBlock(lidxs, w - begin) else before
  {
    var p := After(end, fits, sizes);
    AfterOk(end, fits, sizes);
    SizeLaw(p.leftover, end, sizes[|sizes| - 1], now);
    TxMeans(p, room, begin, n, lidxs, w, before);
  }

  /** Rewriting the leftover of the last log entry gives the log entries that
      would have been written with it. */
  lemma {:induction false} LeftoverRewritten(room: nat, v: nat, n: nat, lidxs: seq<nat>, leftover: nat, leftover': nat)
    requires room > 0 && |lidxs| == ChunksFor(n)
    ensures var es := Pieces(room, v, n, lidxs, leftover);
            es != [] && es[|es| - 1 := es[|es| - 1].(leftover := leftover')] == Pieces(room, v, n, lidxs, leftover')
    decreases n
  {
    if ChunksFor(n) > room {
      LeftoverRewritten(AVAIL_MAX, v + CHUNK * room, n - CHUNK * room, lidxs[room..], leftover, leftover');
    }
  }
}
