/** What committed transactions mean: a mapping from the file's blocks to logical
    blocks, in which the last transaction that covers a block wins, and a size. */
module Replay {
  import opened Layout

  // One log entry: every 64 blocks are contiguous and have one element in `lidxs`.
  datatype LogEntry = LogEntry(beginVidx: nat, numBlocks: nat, lidxs: seq<nat>, leftover: nat)

  // A committed transaction: inline, or a chain of log entries.
  datatype Tx =
    | InlineTx(numBlocks: nat, beginVidx: nat, beginLidx: nat)
    | ChainTx(entries: seq<LogEntry>)

  predicate EntryOk(e: LogEntry)
  {
    |e.lidxs| == ChunksFor(e.numBlocks)
  }

  predicate TxOk(tx: Tx)
  {
    tx.ChainTx? ==> tx.entries != [] && forall i | 0 <= i < |tx.entries| :: EntryOk(tx.entries[i])
  }

  predicate Within(begin: nat, n: nat, v: nat) { begin <= v < begin + n }

  /** The logical block of the `k`-th block of an extent stored in chunks. */
  function ChunkBlock(lidxs: seq<nat>, k: nat): nat
    requires k / CHUNK < |lidxs|
  {
    lidxs[k / CHUNK] + k % CHUNK
  }

  lemma ChunkIndex(k: nat, n: nat)
    requires k < n
    ensures k / CHUNK < ChunksFor(n)
  {
  }

  /* One transaction. */

  predicate EntryCovers(e: LogEntry, v: nat) { Within(e.beginVidx, e.numBlocks, v) }

  function EntryMaps(e: LogEntry, v: nat): nat
    requires EntryOk(e) && EntryCovers(e, v)
  {
    ChunkIndex(v - e.beginVidx, e.numBlocks);
    ChunkBlock(e.lidxs, v - e.beginVidx)
  }

  /** `m` updated by an entry: the entry's blocks change, no other does. */
  function Under(e: LogEntry, v: nat, before: nat): nat
    requires EntryOk(e)
  {
    if EntryCovers(e, v) then EntryMaps(e, v) else before
  }

  function UnderChain(es: seq<LogEntry>, v: nat, before: nat): nat
    requires forall i | 0 <= i < |es| :: EntryOk(es[i])
  {
    if es == [] then before else Under(es[|es| - 1], v, UnderChain(es[..|es| - 1], v, before))
  }

  /** Where `v` is mapped after transaction `tx`. */
  function UnderTx(tx: Tx, v: nat, before: nat): nat
    requires TxOk(tx)
  {
    match tx
    case InlineTx(n, vidx, lidx) => if Within(vidx, n, v) then lidx + (v - vidx) else before
    case ChainTx(es) => UnderChain(es, v, before)
  }

  /** The end of the file as a log entry states it. */
  function EntryEnd(e: LogEntry): int { (e.beginVidx + e.numBlocks) * BLOCK_SIZE - e.leftover }

  function TxEnd(tx: Tx): int
    requires TxOk(tx)
  {
    match tx
    case InlineTx(n, vidx, _) => if n == 0 then 0 else (vidx + n) * BLOCK_SIZE
    case ChainTx(es) => EntryEnd(es[|es| - 1])
  }

  function Grow(size: nat, end: int): nat { if end > size then end else size }

  /* A history of transactions. */

  predicate HistoryOk(txs: seq<Tx>) { forall i | 0 <= i < |txs| :: TxOk(txs[i]) }

  /** The mapping after `txs`; 0 where nothing is mapped. */
  function Lookup(txs: seq<Tx>, v: nat): nat
    requires HistoryOk(txs)
  {
    if txs == [] then 0 else UnderTx(txs[|txs| - 1], v, Lookup(txs[..|txs| - 1], v))
  }

  function SizeOf(txs: seq<Tx>): nat
    requires HistoryOk(txs)
  {
    if txs == [] then 0 else Grow(SizeOf(txs[..|txs| - 1]), TxEnd(txs[|txs| - 1]))
  }

  lemma {:induction false} LookupAppend(txs: seq<Tx>, tx: Tx, v: nat)
    requires HistoryOk(txs) && TxOk(tx)
    ensures HistoryOk(txs + [tx]) && Lookup(txs + [tx], v) == UnderTx(tx, v, Lookup(txs, v))
    ensures SizeOf(txs + [tx]) == Grow(SizeOf(txs), TxEnd(tx))
  {
    assert (txs + [tx])[..|txs|] == txs;
  }

  /* Replaying a suffix again. */

  predicate Covers(tx: Tx, v: nat)
    requires TxOk(tx)
  {
    match tx
    case InlineTx(n, vidx, _) => Within(vidx, n, v)
    case ChainTx(es) => exists i | 0 <= i < |es| :: EntryCovers(es[i], v)
  }

  /** A transaction either decides where `v` is mapped, or does not touch it. */
  lemma {:induction false} ChainDecides(es: seq<LogEntry>, v: nat, b1: nat, b2: nat)
    requires forall i | 0 <= i < |es| :: EntryOk(es[i])
    ensures (exists i | 0 <= i < |es| :: EntryCovers(es[i], v)) ==> UnderChain(es, v, b1) == UnderChain(es, v, b2)
    ensures !(exists i | 0 <= i < |es| :: EntryCovers(es[i], v)) ==> UnderChain(es, v, b1) == b1
  {
    if es != [] {
      var init := es[..|es| - 1];
      ChainDecides(init, v, b1, b2);
      if exists i | 0 <= i < |es| :: EntryCovers(es[i], v) {
        var i :| 0 <= i < |es| && EntryCovers(es[i], v);
        if i < |es| - 1 { assert EntryCovers(init[i], v); }
      } else {
        assert !EntryCovers(es[|es| - 1], v);
        assert forall i | 0 <= i < |init| :: !EntryCovers(init[i], v);
      }
    }
  }

  lemma TxDecides(tx: Tx, v: nat, b1: nat, b2: nat)
    requires TxOk(tx)
    ensures Covers(tx, v) ==> UnderTx(tx, v, b1) == UnderTx(tx, v, b2)
    ensures !Covers(tx, v) ==> UnderTx(tx, v, b1) == b1
  {
    if tx.ChainTx? { ChainDecides(tx.entries, v, b1, b2); }
  }

  /** The mapping after `txs`, started from a mapping that sends `v` to `before`. */
  function LookupFrom(txs: seq<Tx>, v: nat, before: nat): nat
    requires HistoryOk(txs)
  {
    if txs == [] then before else UnderTx(txs[|txs| - 1], v, LookupFrom(txs[..|txs| - 1], v, before))
  }

  function SizeFrom(txs: seq<Tx>, size: nat): nat
    requires HistoryOk(txs)
  {
    if txs == [] then size else Grow(SizeFrom(txs[..|txs| - 1], size), TxEnd(txs[|txs| - 1]))
  }

  lemma {:induction false} LookupConcat(txs: seq<Tx>, more: seq<Tx>, v: nat)
    requires HistoryOk(txs) && HistoryOk(more)
    ensures HistoryOk(txs + more) && Lookup(txs + more, v) == LookupFrom(more, v, Lookup(txs, v))
    ensures SizeOf(txs + more) == SizeFrom(more, SizeOf(txs))
  {
    if more == [] {
      assert txs + more == txs;
    } else {
      var init := more[..|more| - 1];
      LookupConcat(txs, init, v);
      assert (txs + more)[..|txs + more| - 1] == txs + init;
    }
  }

  lemma {:induction false} FromDecides(txs: seq<Tx>, v: nat, b1: nat, b2: nat)
    requires HistoryOk(txs)
    ensures LookupFrom(txs, v, b1) == LookupFrom(txs, v, b2) || (LookupFrom(txs, v, b1) == b1
        && LookupFrom(txs, v, b2) == b2)
  {
    if txs != [] {
      FromDecides(txs[..|txs| - 1], v, b1, b2);
      var tx := txs[|txs| - 1];
      TxDecides(tx, v, LookupFrom(txs[..|txs| - 1], v, b1), LookupFrom(txs[..|txs| - 1], v, b2));
      TxDecides(tx, v, LookupFrom(txs[..|txs| - 1], v, b2), LookupFrom(txs[..|txs| - 1], v, b1));
    }
  }

  lemma {:induction false} SizeFromCovers(txs: seq<Tx>, size: nat, i: nat)
    requires HistoryOk(txs)
    ensures size <= SizeFrom(txs, size)
    ensures i < |txs| ==> TxEnd(txs[i]) <= SizeFrom(txs, size)
  {
    if txs != [] { SizeFromCovers(txs[..|txs| - 1], size, i); }
  }

  /** Applying transactions whose ends are within the size changes no size. */
  lemma {:induction false} SizeFromStays(txs: seq<Tx>, size: nat)
    requires HistoryOk(txs) && forall i | 0 <= i < |txs| :: TxEnd(txs[i]) <= size
    ensures SizeFrom(txs, size) == size
  {
    if txs != [] { SizeFromStays(txs[..|txs| - 1], size); }
  }

  /** Replaying a suffix of the history once more, on top of the whole history,
      changes neither mapping nor size. */
  lemma {:induction false} ReplayAgain(txs: seq<Tx>, again: seq<Tx>, v: nat)
    requires HistoryOk(txs) && HistoryOk(again)
    ensures HistoryOk(txs + again)
    ensures LookupFrom(again, v, Lookup(txs + again, v)) == Lookup(txs + again, v)
    ensures SizeFrom(again, SizeOf(txs + again)) == SizeOf(txs + again)
  {
    LookupConcat(txs, again, v);
    FromDecides(again, v, Lookup(txs, v), Lookup(txs + again, v));
    forall i | 0 <= i < |again| ensures TxEnd(again[i]) <= SizeOf(txs + again) {
      SizeFromCovers(again, SizeOf(txs), i);
    }
    SizeFromStays(again, SizeOf(txs + again));
  }
}
