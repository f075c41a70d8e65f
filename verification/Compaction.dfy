/** Garbage collection of the history: the block table is written out as a new,
    shorter history that maps the same blocks and has the same size. */
module Compaction {
  import opened Layout
  import opened Replay
  import opened LogChain
  import opened CommitEntry
  import opened BlkTable

  /* What the loop emits. */

  /** The entry for the blocks from `begin` to the last one before `end`. */
  function Extent(table: seq<nat>, begin: nat, end: nat): Tx
    requires begin <= end
  {
    InlineTx(end - begin, begin, At(table, begin))
  }

  /** The last commit entry: indirect if the file does not end with a block. */
  function LastTx(table: seq<nat>, size: nat, begin: nat, end: nat): Tx
    requires begin <= end
  {
    var leftover := AlignUp(size) - size;
    if leftover == 0 then Extent(table, begin, end)
    else ChainTx([LogEntry(begin, end - begin, [At(table, begin)], leftover)])
  }

  /** Block `i` continues the extent that starts at `begin`. */
  predicate Joins(table: seq<nat>, begin: nat, i: nat)
    requires begin < i
  {
    At(table, i) == 0 || (At(table, i) == At(table, i - 1) + 1 && i - begin < INLINE_MAX)
  }

  /** The entries still to be emitted when the loop is at `i` with an extent open
      since `begin`. */
  function Emit(table: seq<nat>, size: nat, begin: nat, i: nat): seq<Tx>
    requires begin < i
    decreases BlocksFor(size) - i
  {
    if i >= BlocksFor(size) then [LastTx(table, size, begin, i)]
    else if Joins(table, begin, i) then Emit(table, size, begin, i + 1)
    else [Extent(table, begin, i)] + Emit(table, size, i, i + 1)
  }

  /** The new history. */
  method Compact(table: seq<nat>, size: nat) returns (txs: seq<Tx>)
    ensures txs == Emit(table, size, 0, 1)
  {
    var begin, i := 0, 1;
    txs := [];
    while i < BlocksFor(size)
      invariant begin < i && txs + Emit(table, size, begin, i) == Emit(table, size, 0, 1)
    {
      if !Joins(table, begin, i) {
        assert txs + ([Extent(table, begin, i)] + Emit(table, size, i, i + 1))
            == (txs + [Extent(table, begin, i)]) + Emit(table, size, i, i + 1);
        txs := txs + [Extent(table, begin, i)];
        begin := i;
      }
      i := i + 1;
    }
    txs := txs + [LastTx(table, size, begin, i)];
  }

  /* What it means. */

  /** Nothing past the end of the file is mapped. */
  ghost predicate Bounded(table: seq<nat>, size: nat) { forall v: nat | v >= BlocksFor(size) :: At(table, v) == 0 }

  predicate HoleFree(table: seq<nat>, size: nat) { forall v: nat | 1 <= v < BlocksFor(size) :: At(table, v) != 0 }

  /** The open extent is contiguous and can be one entry. */
  ghost predicate Open(table: seq<nat>, begin: nat, i: nat)
  {
    begin < i <= begin + INLINE_MAX && forall k | begin <= k < i :: At(table, k) == At(table, begin) + (k - begin)
  }

  /** An extent can be stored in one slot, or in one log entry of one chunk. */
  predicate ShortTx(tx: Tx)
  {
    match tx
    case InlineTx(n, _, _) => n <= INLINE_MAX
    case ChainTx(es) => |es| == 1 && 0 < es[0].numBlocks <= INLINE_MAX && |es[0].lidxs| == 1
  }

  lemma {:induction false} FromCons(tx: Tx, rest: seq<Tx>, v: nat, before: nat, size: nat)
    requires TxOk(tx) && HistoryOk(rest)
    ensures HistoryOk([tx] + rest)
    ensures LookupFrom([tx] + rest, v, before) == LookupFrom(rest, v, UnderTx(tx, v, before))
    ensures SizeFrom([tx] + rest, size) == SizeFrom(rest, Grow(size, TxEnd(tx)))
  {
    if rest == [] {
      assert [tx] + rest == [tx] && [tx][..0] == [];
    } else {
      FromCons(tx, rest[..|rest| - 1], v, before, size);
      assert ([tx] + rest)[..|rest|] == [tx] + rest[..|rest| - 1];
    }
  }

  /** The last entry maps like an inline one. */
  lemma LastMaps(table: seq<nat>, size: nat, begin: nat, end: nat, v: nat, before: nat)
    requires begin < end <= begin + INLINE_MAX
    ensures TxOk(LastTx(table, size, begin, end)) && ShortTx(LastTx(table, size, begin, end))
    ensures UnderTx(LastTx(table, size, begin, end), v, before)
        == if begin <= v < end then At(table, begin) + (v - begin) else before
    ensures TxEnd(LastTx(table, size, begin, end)) == end * BLOCK_SIZE - (AlignUp(size) - size)
  {
    var leftover := AlignUp(size) - size;
    if leftover != 0 {
      var es := [LogEntry(begin, end - begin, [At(table, begin)], leftover)];
      assert es[..0] == [];
      assert UnderChain(es, v, before) == Under(es[0], v, UnderChain([], v, before));
    }
  }

  /** Without holes, the entries emitted from `begin` on map every block from
      there on as the table does, leave the others alone and can all be stored. */
  lemma {:induction false} EmitMaps(table: seq<nat>, size: nat, begin: nat, i: nat, v: nat, before: nat)
    requires HoleFree(table, size) && Open(table, begin, i) && i <= Max(1, BlocksFor(size))
    ensures HistoryOk(Emit(table, size, begin, i))
    ensures forall k | 0 <= k < |Emit(table, size, begin, i)| :: ShortTx(Emit(table, size, begin, i)[k])
    ensures LookupFrom(Emit(table, size, begin, i), v, before)
         == if begin <= v < Max(1, BlocksFor(size)) then At(table, v) else before
    decreases BlocksFor(size) - i
  {
    if i >= BlocksFor(size) {
      var last := LastTx(table, size, begin, i);
      LastMaps(table, size, begin, i, v, before);
      FromCons(last, [], v, before, 0);
      assert [last] + [] == [last];
    } else if Joins(table, begin, i) {
      EmitMaps(table, size, begin, i + 1, v, before);
    } else {
      EmitMaps(table, size, i, i + 1, v, UnderTx(Extent(table, begin, i), v, before));
      FromCons(Extent(table, begin, i), Emit(table, size, i, i + 1), v, before, 0);
    }
  }

  /** The new size is that of the last entry. */
  lemma {:induction false} EmitSize(table: seq<nat>, size: nat, begin: nat, i: nat, now: nat)
    requires size > 0 && HoleFree(table, size) && Open(table, begin, i) && i <= BlocksFor(size) && now <= size
    ensures HistoryOk(Emit(table, size, begin, i)) && SizeFrom(Emit(table, size, begin, i), now) == size
    decreases BlocksFor(size) - i
  {
    EmitMaps(table, size, begin, i, 0, 0);
    if i >= BlocksFor(size) {
      var last := LastTx(table, size, begin, i);
      LastMaps(table, size, begin, i, 0, 0);
      FromCons(last, [], 0, 0, now);
      assert [last] + [] == [last];
    } else if Joins(table, begin, i) {
      EmitSize(table, size, begin, i + 1, now);
    } else {
      EmitSize(table, size, i, i + 1, Grow(now, i * BLOCK_SIZE));
      FromCons(Extent(table, begin, i), Emit(table, size, i, i + 1), 0, 0, now);
    }
  }

  /** The first block of an emitted extent, and the logical block it is mapped to. */
  function FirstOf(tx: Tx): nat
    requires ShortTx(tx)
  {
    if tx.InlineTx? then tx.beginVidx else tx.entries[0].beginVidx
  }

  function BlockOf(tx: Tx): nat
    requires ShortTx(tx)
  {
    if tx.InlineTx? then tx.beginLidx else tx.entries[0].lidxs[0]
  }

  lemma {:induction false} EmitStarts(table: seq<nat>, size: nat, begin: nat, i: nat)
    requires HoleFree(table, size) && Open(table, begin, i) && i <= Max(1, BlocksFor(size))
    ensures var txs := Emit(table, size, begin, i);
            txs != [] && ShortTx(txs[0]) && FirstOf(txs[0]) == begin && BlockOf(txs[0]) == At(table, begin)
    decreases BlocksFor(size) - i
  {
    if i >= BlocksFor(size) {
      LastMaps(table, size, begin, i, 0, 0);
    } else if Joins(table, begin, i) {
      EmitStarts(table, size, begin, i + 1);
    }
  }

  /** Without holes, an extent is as long as it can be: the next one starts behind it,
      and continues it only if it has 63 blocks. */
  lemma {:induction false} EmitJoins(table: seq<nat>, size: nat, begin: nat, i: nat, k: nat)
    requires HoleFree(table, size) && Open(table, begin, i) && i <= Max(1, BlocksFor(size))
    requires k + 1 < |Emit(table, size, begin, i)|
    ensures var tx, next := Emit(table, size, begin, i)[k], Emit(table, size, begin, i)[k + 1];
            && tx.InlineTx? && ShortTx(next) && FirstOf(next) == tx.beginVidx + tx.numBlocks
            && (BlockOf(next) == tx.beginLidx + tx.numBlocks ==> tx.numBlocks == INLINE_MAX)
    decreases BlocksFor(size) - i
  {
    if i < BlocksFor(size) {
      if Joins(table, begin, i) {
        EmitJoins(table, size, begin, i + 1, k);
      } else if k > 0 {
        EmitJoins(table, size, i, i + 1, k - 1);
      } else {
        EmitStarts(table, size, i, i + 1);
        assert At(table, i - 1) == At(table, begin) + (i - 1 - begin);
      }
    }
  }

  /** With a hole, it need not be: block 2 would continue the first extent. */
  lemma HoleSplits()
    ensures Emit([5, 0, 7], 3 * BLOCK_SIZE, 0, 1) == [InlineTx(2, 0, 5), InlineTx(1, 2, 7)]
  {
    var table, size := [5, 0, 7], 3 * BLOCK_SIZE;
    assert Emit(table, size, 0, 1) == Emit(table, size, 0, 2);
    assert Emit(table, size, 0, 2) == [Extent(table, 0, 2)] + Emit(table, size, 2, 3);
  }

  lemma {:induction false} EmitOne(table: seq<nat>, size: nat, begin: nat, i: nat, v: nat, before: nat)
    requires begin < i && i >= BlocksFor(size) && HistoryOk(Emit(table, size, begin, i))
    ensures LookupFrom(Emit(table, size, begin, i), v, before)
        == if begin <= v < i then At(table, begin) + (v - begin) else before
  {
    var last := LastTx(table, size, begin, i);
    assert Emit(table, size, begin, i) == [last] && TxOk([last][0]);
    FromCons(last, [], v, before, 0);
    assert [last] + [] == [last];
    if last.ChainTx? {
      assert last.entries[..0] == [];
      assert UnderChain(last.entries, v, before) == Under(last.entries[0], v, UnderChain([], v, before));
    }
  }

  lemma {:induction false} EmitMore(table: seq<nat>, size: nat, begin: nat, i: nat, v: nat, before: nat)
    requires begin < i < BlocksFor(size) && !Joins(table, begin, i) && HistoryOk(Emit(table, size, begin, i))
    ensures HistoryOk(Emit(table, size, i, i + 1))
    ensures LookupFrom(Emit(table, size, begin, i), v, before)
         == LookupFrom(Emit(table, size, i, i + 1), v,
                       if begin <= v < i then At(table, begin) + (v - begin) else before)
  {
    var all, rest := Emit(table, size, begin, i), Emit(table, size, i, i + 1);
    forall k | 0 <= k < |rest| ensures TxOk(rest[k]) { assert rest[k] == all[k + 1]; }
    FromCons(Extent(table, begin, i), rest, v, before, 0);
  }

  /** Blocks before the open extent are left alone. */
  lemma {:induction false} EmitBelow(table: seq<nat>, size: nat, begin: nat, i: nat, v: nat, before: nat)
    requires v < begin < i && HistoryOk(Emit(table, size, begin, i))
    ensures LookupFrom(Emit(table, size, begin, i), v, before) == before
    decreases BlocksFor(size) - i
  {
    if i >= BlocksFor(size) {
      EmitOne(table, size, begin, i, v, before);
    } else if Joins(table, begin, i) {
      EmitBelow(table, size, begin, i + 1, v, before);
    } else {
      EmitMore(table, size, begin, i, v, before);
      EmitBelow(table, size, i, i + 1, v, before);
    }
  }

  /** With or without holes, a block is mapped as part of the extent of some
      earlier block `s`, which is the first one or is not a hole. */
  lemma {:induction false} EmitExtent(table: seq<nat>, size: nat, begin: nat, i: nat, v: nat, before: nat)
    returns (s: nat)
    requires begin < i <= Max(1, BlocksFor(size)) && begin <= v < Max(1, BlocksFor(size))
    requires HistoryOk(Emit(table, size, begin, i))
    ensures begin <= s <= v && (s == begin || At(table, s) != 0)
    ensures LookupFrom(Emit(table, size, begin, i), v, before) == At(table, s) + (v - s)
    decreases BlocksFor(size) - i
  {
    if i >= BlocksFor(size) {
      s := begin;
      EmitOne(table, size, begin, i, v, before);
    } else if Joins(table, begin, i) {
      s := EmitExtent(table, size, begin, i + 1, v, before);
    } else {
      EmitMore(table, size, begin, i, v, before);
      if v >= i {
        s := EmitExtent(table, size, i, i + 1, v, before);
      } else {
        s := begin;
        EmitBelow(table, size, i, i + 1, v, At(table, begin) + (v - begin));
      }
    }
  }

  /* Main results. */

  /** The history `txs` says what the table says, in entries that can be stored. */
  ghost predicate Describes(txs: seq<Tx>, table: seq<nat>, size: nat)
  {
    && HistoryOk(txs) && (forall k | 0 <= k < |txs| :: ShortTx(txs[k]))
    && SizeOf(txs) == size && forall v: nat :: Lookup(txs, v) == At(table, v)
  }

  lemma {:induction false} FromNothing(txs: seq<Tx>, v: nat)
    requires HistoryOk(txs)
    ensures LookupFrom(txs, v, 0) == Lookup(txs, v) && SizeFrom(txs, 0) == SizeOf(txs)
  {
    if txs != [] { FromNothing(txs[..|txs| - 1], v); }
  }

  /** Of an empty file, the loop makes a file of one block. A collection does not
      start for an empty file, which has no transaction block. */
  lemma {:induction false} EmptyFileGrows(table: seq<nat>)
    ensures HistoryOk(Emit(table, 0, 0, 1)) && SizeOf(Emit(table, 0, 0, 1)) == BLOCK_SIZE
  {
    var txs := [Extent(table, 0, 1)];
    assert Emit(table, 0, 0, 1) == txs && txs[..0] == [];
    assert SizeOf(txs) == Grow(SizeOf([]), TxEnd(txs[0]));
  }

  /** Compaction preserves the meaning exactly when the file is not empty and has
      no hole, apart from a possible one at its first block. */
  lemma {:induction false} CompactionIff(table: seq<nat>, size: nat)
    requires Bounded(table, size)
    ensures Describes(Emit(table, size, 0, 1), table, size) <==> size > 0 && HoleFree(table, size)
  {
    var txs := Emit(table, size, 0, 1);
    if size > 0 && HoleFree(table, size) {
      EmitMaps(table, size, 0, 1, 0, 0);
      EmitSize(table, size, 0, 1, 0);
      FromNothing(txs, 0);
      forall v: nat ensures Lookup(txs, v) == At(table, v) {
        EmitMaps(table, size, 0, 1, v, 0);
        FromNothing(txs, v);
      }
    }
    if Describes(txs, table, size) {
      forall v: nat | 1 <= v < BlocksFor(size) ensures At(table, v) != 0 {
        FromNothing(txs, v);
        var s := EmitExtent(table, size, 0, 1, v, 0);
        assert Lookup(txs, v) == At(table, v);
      }
      EmptyFileGrows(table);
    }
  }

  /** A sparse file: its second block has never been written. */
  lemma SparseFileBreaks()
    ensures !Describes(Emit([5, 0, 9], 3 * BLOCK_SIZE, 0, 1), [5, 0, 9], 3 * BLOCK_SIZE)
  {
    CompactionIff([5, 0, 9], 3 * BLOCK_SIZE);
    assert At([5, 0, 9], 1) == 0;
  }

  /** Nothing is mapped past the end of a file whose entries leave less than a
      block unused: the table of every history is bounded. */
  lemma {:induction false} HistoryBounded(txs: seq<Tx>, v: nat)
    requires HistoryOk(txs) && forall i | 0 <= i < |txs| :: Tight(txs[i])
    requires v >= BlocksFor(SizeOf(txs))
    ensures Lookup(txs, v) == 0
  {
    if txs != [] {
      var init, tx := txs[..|txs| - 1], txs[|txs| - 1];
      HistoryBounded(init, v);
      assert Tight(tx);
      assert !Covers(tx, v);
      TxDecides(tx, v, 0, 0);
    }
  }

  /** All blocks of a transaction start before its end. */
  ghost predicate Tight(tx: Tx)
    requires TxOk(tx)
  {
    forall v: nat | Covers(tx, v) :: v * BLOCK_SIZE < TxEnd(tx)
  }

  lemma {:induction false} WritesAreTight(first: nat, v: nat, n: nat, lidxs: seq<nat>, leftover: nat, lidx: nat)
    requires first > 0 && |lidxs| == ChunksFor(n) && leftover < BLOCK_SIZE
    ensures Tight(InlineTx(n, v, lidx))
    ensures TxOk(ChainTx(Pieces(first, v, n, lidxs, leftover))) && Tight(ChainTx(Pieces(first, v, n, lidxs, leftover)))
  {
    var tx := ChainTx(Pieces(first, v, n, lidxs, leftover));
    PiecesMeaning(first, v, n, lidxs, leftover, 0, 0);
    forall w: nat | Covers(tx, w) ensures w * BLOCK_SIZE < TxEnd(tx) {
      PiecesMeaning(first, v, n, lidxs, leftover, w, 0);
      PiecesMeaning(first, v, n, lidxs, leftover, w, 1);
      TxDecides(tx, w, 0, 1);
      assert Within(v, n, w);
    }
  }

  // What a write commits: an extent of new blocks, none of which is block 0.
  datatype Write = Write(entry: Prepared, room: nat, begin: nat, n: nat, lidxs: seq<nat>)

  ghost predicate WriteOk(u: Write)
  {
    && u.room > 0 && u.n > 0 && |u.lidxs| == ChunksFor(u.n) && u.entry.leftover < BLOCK_SIZE
    && (u.entry.inlined ==> u.n <= INLINE_MAX && u.entry.leftover == 0)
    && forall i | 0 <= i < |u.lidxs| :: u.lidxs[i] > 0
  }

  ghost function TxOfWrite(u: Write): Tx
    requires WriteOk(u)
  {
    TxOf(u.entry, u.room, u.begin, u.n, u.lidxs)
  }

  ghost predicate Committed(us: seq<Write>, txs: seq<Tx>)
  {
    |txs| == |us| && forall i | 0 <= i < |us| :: WriteOk(us[i]) && txs[i] == TxOfWrite(us[i])
  }

  /** A write covers exactly its blocks, maps them to blocks other than 0, and ends
      behind the start of its last block. */
  lemma {:induction false} WriteMeaning(u: Write, v: nat, before: nat)
    requires WriteOk(u)
    ensures TxOk(TxOfWrite(u)) && Tight(TxOfWrite(u)) && TxEnd(TxOfWrite(u)) > 0
    ensures if Within(u.begin, u.n, v) then UnderTx(TxOfWrite(u), v, before) != 0
            else UnderTx(TxOfWrite(u), v, before) == before
  {
    WritesAreTight(u.room, u.begin, u.n, u.lidxs, u.entry.leftover, u.lidxs[0]);
    TxMeans(u.entry, u.room, u.begin, u.n, u.lidxs, v, before);
  }

  ghost predicate Wrote(us: seq<Write>, v: nat)
  {
    exists i | 0 <= i < |us| :: Within(us[i].begin, us[i].n, v)
  }

  /** A block is mapped exactly if some write covered it. */
  lemma {:induction false} MappedIffWritten(us: seq<Write>, txs: seq<Tx>, v: nat)
    requires Committed(us, txs)
    ensures HistoryOk(txs) && (Lookup(txs, v) != 0 <==> Wrote(us, v))
  {
    forall i | 0 <= i < |txs| ensures TxOk(txs[i]) { WriteMeaning(us[i], v, 0); }
    if us != [] {
      var n := |us| - 1;
      MappedIffWritten(us[..n], txs[..n], v);
      WriteMeaning(us[n], v, Lookup(txs[..n], v));
      WroteLast(us, v);
    }
  }

  lemma WroteLast(us: seq<Write>, v: nat)
    requires us != []
    ensures var n := |us| - 1; Wrote(us, v) <==> Wrote(us[..n], v) || Within(us[n].begin, us[n].n, v)
  {
    var n := |us| - 1;
    assert us == us[..n] + [us[n]];
    if Wrote(us[..n], v) {
      var i :| 0 <= i < n && Within(us[..n][i].begin, us[..n][i].n, v);
      assert Within(us[i].begin, us[i].n, v);
    }
  }

  /** The table of any history of writes is compacted faithfully exactly if every
      block of the file but the first has been written. */
  lemma {:induction false} CompactionOfWrites(us: seq<Write>, txs: seq<Tx>, table: seq<nat>, size: nat)
    requires us != [] && Committed(us, txs) && HistoryOk(txs) && Agrees(table, size, txs)
    ensures Describes(Emit(table, size, 0, 1), table, size) <==>
              forall v: nat | 1 <= v < BlocksFor(size) :: Wrote(us, v)
  {
    var n := |us| - 1;
    forall i | 0 <= i < |txs| ensures Tight(txs[i]) { WriteMeaning(us[i], 0, 0); }
    forall v: nat | v >= BlocksFor(size) ensures At(table, v) == 0 { HistoryBounded(txs, v); }
    forall v: nat ensures At(table, v) != 0 <==> Wrote(us, v) { MappedIffWritten(us, txs, v); }
    WriteMeaning(us[n], 0, 0);
    assert size > 0;
    CompactionIff(table, size);
  }

  /** Replaying the new history, then the entries of the old tail block, `again`,
      once more, and then everything appended since, gives what the old history
      gives. */
  lemma {:induction false} CompactedHistory(txs: seq<Tx>, again: seq<Tx>, more: seq<Tx>, compact: seq<Tx>,
                                            table: seq<nat>, size: nat, v: nat)
    requires HistoryOk(txs) && HistoryOk(again) && HistoryOk(more) && HistoryOk(txs + again)
    requires Agrees(table, size, txs + again) && Describes(compact, table, size)
    ensures HistoryOk(txs + again + more) && HistoryOk(compact + again + more)
    ensures Lookup(compact + again + more, v) == Lookup(txs + again + more, v)
    ensures SizeOf(compact + again + more) == SizeOf(txs + again + more)
  {
    LookupConcat(txs + again, more, v);
    LookupConcat(compact, again, v);
    LookupConcat(compact + again, more, v);
    ReplayAgain(txs, again, v);
    assert At(table, v) == Lookup(txs + again, v) == Lookup(compact, v);
  }
}
