/** What a table opened after a garbage collection says. Its replay starts at the
    meta block and stops in the last block of the new list, while everyone who had
    the file open goes on appending to the old tail block. */
module NewHistory {
  import opened Layout
  import opened Entry
  import opened TxLog
  import opened Crash
  import opened Replay
  import opened LogChain
  import opened BlkTable
  import opened Compaction
  import opened NewList

  /* Which entries a replay sees. */

  /** Unless the entries fill the last block, a replay sees nothing but them exactly
      if the slot behind the last one is empty, whatever the old tail block holds. */
  lemma {:induction false} ReplaySeesIff(blocks: map<nat, TxBlock>, mem: map<nat, TxBlock>, es: seq<TxEntry>,
                                         news: seq<nat>, tail: nat, meta: TxBlock)
    requires |es| % TX_SLOTS != 0 && FreshBlocks(mem, news) && |news| == ListLength(|es|) && tail != 0
    requires Spells(blocks, mem, es, |es|, news, |news| - 1, tail)
    requires 0 in blocks && blocks[0] == CollectedMeta(meta, news[0])
    ensures var k, slots := |es| % TX_SLOTS, mem[news[|news| - 1]].slots;
            Recovered(blocks, 0) == Dummies() + es <==> k >= LAST_LINE || slots[k].None?
  {
    ReplayOfList(blocks, mem, es, news, tail, meta);
    NeverFull(mem[news[|news| - 1]].slots, |es| % TX_SLOTS);
  }

  /** An entry appended behind the new ones. */
  lemma {:induction false} AppendToList(blocks: map<nat, TxBlock>, mem: map<nat, TxBlock>, es: seq<TxEntry>,
                                        e: TxEntry, news: seq<nat>, tail: nat)
    requires |es| % TX_SLOTS != 0 && FreshBlocks(mem, news) && |news| == ListLength(|es|)
    requires Spells(blocks, mem, es, |es|, news, |news| - 1, tail)
    ensures var b := news[|news| - 1];
            && b in blocks && |blocks[b].slots| == TX_SLOTS && ListLength(|es| + 1) == |news|
            && var after := blocks[b := StoreAt(blocks[b], |es| % TX_SLOTS, e)];
               Spells(after, mem, es + [e], |es| + 1, news, |news| - 1, tail)
  {
    var last, b, n := |news| - 1, news[|news| - 1], |es|;
    forall j | 0 <= j <= last ensures HoldsAt(blocks, mem, es + [e], n, news, last, tail, j) {
      assert HoldsAt(blocks, mem, es, n, news, last, tail, j);
      var stale := mem[news[j]].slots;
      assert SlotsAfter(es, n, stale, j) == SlotsAfter(es + [e], n, stale, j);
    }
    assert HoldsAt(blocks, mem, es + [e], n, news, last, tail, last);
    var after := blocks[b := StoreAt(blocks[b], n % TX_SLOTS, e)];
    StoreStep(blocks, after, mem, es + [e], n, news, last, tail);
  }

  /** Once the entries `newer` appended to the new list have filled its last block,
      a replay goes on with the entries of the old tail block. */
  lemma {:induction false} ReplayGoesOn(blocks: map<nat, TxBlock>, mem: map<nat, TxBlock>, es: seq<TxEntry>,
                                        newer: seq<TxEntry>, news: seq<nat>, tail: nat, meta: TxBlock)
    requires |es + newer| % TX_SLOTS == 0 && es != [] && FreshBlocks(mem, news) && tail != 0
    requires |news| == ListLength(|es + newer|)
    requires Spells(blocks, mem, es + newer, |es + newer|, news, |news| - 1, tail)
    requires 0 in blocks && blocks[0] == CollectedMeta(meta, news[0])
    ensures Recovered(blocks, 0)
         == Dummies() + (es + newer) + Recovered(blocks - SetOf([0] + news), tail)
  {
    ReplayOfList(blocks, mem, es + newer, news, tail, meta);
  }

  /* What they mean. */

  function DummyTxs(): (txs: seq<Tx>) ensures HistoryOk(txs) { seq(META_SLOTS, _ => InlineTx(0, 0, 0)) }

  lemma {:induction false} OnlyDummies(txs: seq<Tx>, v: nat)
    requires forall i | 0 <= i < |txs| :: txs[i] == InlineTx(0, 0, 0)
    ensures HistoryOk(txs) && Lookup(txs, v) == 0 && SizeOf(txs) == 0
  {
    if txs != [] { OnlyDummies(txs[..|txs| - 1], v); }
  }

  /** The dummy entries stand for transactions that map nothing. */
  lemma {:induction false} DummiesMeanNothing(mem: Mem, es: seq<TxEntry>, paths: seq<seq<Node>>, txs: seq<Tx>, v: nat)
    requires LogMeans(mem, es, paths, txs) && HistoryOk(txs)
    ensures LogMeans(mem, Dummies() + es, seq(META_SLOTS, _ => []) + paths, DummyTxs() + txs)
    ensures HistoryOk(DummyTxs() + txs) && Lookup(DummyTxs() + txs, v) == Lookup(txs, v)
    ensures SizeOf(DummyTxs() + txs) == SizeOf(txs)
  {
    OnlyDummies(DummyTxs(), v);
    LookupConcat(DummyTxs(), txs, v);
    FromNothing(txs, v);
  }

  ghost predicate Touches(txs: seq<Tx>, v: nat)
    requires HistoryOk(txs)
  {
    exists i | 0 <= i < |txs| :: Covers(txs[i], v)
  }

  /** A transaction that covers some block and maps none where `before` does: the
      blocks of a write are new ones. */
  ghost predicate MapsAway(before: seq<Tx>, tx: Tx)
    requires HistoryOk(before)
  {
    && TxOk(tx) && (exists v: nat :: Covers(tx, v))
    && forall v: nat | Covers(tx, v) :: UnderTx(tx, v, 0) != Lookup(before, v)
  }

  lemma AwayAt(before: seq<Tx>, tx: Tx, v: nat, b: nat)
    requires HistoryOk(before) && MapsAway(before, tx)
    ensures if Covers(tx, v) then UnderTx(tx, v, b) != Lookup(before, v) else UnderTx(tx, v, b) == b
  {
    TxDecides(tx, v, b, 0);
  }

  lemma TouchesLast(txs: seq<Tx>, n: nat, v: nat)
    requires HistoryOk(txs) && |txs| == n + 1
    ensures Touches(txs, v) <==> Touches(txs[..n], v) || Covers(txs[n], v)
  {
    if Touches(txs[..n], v) {
      var i :| 0 <= i < n && Covers(txs[..n][i], v);
      assert Covers(txs[i], v);
    }
    if Touches(txs, v) {
      var i :| 0 <= i < |txs| && Covers(txs[i], v);
      assert i < n ==> txs[..n][i] == txs[i];
    }
  }

  lemma {:induction false} FromTouches(txs: seq<Tx>, v: nat, b1: nat, b2: nat)
    requires HistoryOk(txs)
    ensures Touches(txs, v) ==> LookupFrom(txs, v, b1) == LookupFrom(txs, v, b2)
    ensures !Touches(txs, v) ==> LookupFrom(txs, v, b1) == b1
  {
    if txs != [] {
      var n := |txs| - 1;
      FromTouches(txs[..n], v, b1, b2);
      TxDecides(txs[n], v, LookupFrom(txs[..n], v, b1), LookupFrom(txs[..n], v, b2));
      TouchesLast(txs, n, v);
    }
  }

  lemma AllOk(before: seq<Tx>, txs: seq<Tx>)
    requires HistoryOk(before) && (forall i | 0 <= i < |txs| :: MapsAway(before, txs[i]))
    ensures HistoryOk(txs)
  {
  }

  lemma {:induction false} FromAway(before: seq<Tx>, txs: seq<Tx>, v: nat, b: nat)
    requires HistoryOk(before) && HistoryOk(txs) && (forall i | 0 <= i < |txs| :: MapsAway(before, txs[i]))
    ensures Touches(txs, v) ==> LookupFrom(txs, v, b) != Lookup(before, v)
  {
    if txs != [] {
      var n := |txs| - 1;
      FromAway(before, txs[..n], v, b);
      AwayAt(before, txs[n], v, LookupFrom(txs[..n], v, b));
      TouchesLast(txs, n, v);
    }
  }

  ghost predicate SameMapping(a: seq<Tx>, b: seq<Tx>)
    requires HistoryOk(a) && HistoryOk(b)
  {
    forall v: nat :: Lookup(a, v) == Lookup(b, v)
  }

  /** A table opened after the collection agrees with the tables of everyone who had
      the file open exactly if whatever has been written to the old tail block since
      leaves every block where it was. */
  lemma {:induction false} OpenedAfterIff(before: seq<Tx>, more: seq<Tx>, compact: seq<Tx>, table: seq<nat>, size: nat)
    requires HistoryOk(before) && HistoryOk(more) && Agrees(table, size, before) && Describes(compact, table, size)
    ensures HistoryOk(before + more)
    ensures SameMapping(compact, before + more) <==>
              forall v: nat | Touches(more, v) :: LookupFrom(more, v, 0) == Lookup(before, v)
  {
    LookupConcat(before, more, 0);
    forall v: nat ensures Lookup(compact, v) == Lookup(before + more, v) <==>
                            (Touches(more, v) ==> LookupFrom(more, v, 0) == Lookup(before, v))
    {
      assert Lookup(compact, v) == At(table, v) == Lookup(before, v);
      LookupConcat(before, more, v);
      FromTouches(more, v, Lookup(before, v), 0);
    }
  }

  /** For writes to new blocks that is so exactly if there are none. */
  lemma {:induction false} OpenedAfterWrites(before: seq<Tx>, more: seq<Tx>, compact: seq<Tx>, table: seq<nat>,
                                             size: nat)
    requires HistoryOk(before) && Agrees(table, size, before) && Describes(compact, table, size)
    requires forall i | 0 <= i < |more| :: MapsAway(before, more[i])
    ensures HistoryOk(before + more) && (SameMapping(compact, before + more) <==> more == [])
  {
    AllOk(before, more);
    OpenedAfterIff(before, more, compact, table, size);
    if more != [] {
      assert MapsAway(before, more[0]);
      var v: nat :| Covers(more[0], v);
      FromAway(before, more, v, 0);
      assert Touches(more, v);
    }
  }

  /** When its own appends, `newer`, have filled the last block of the new list, it
      applies the entries of the old tail block, `again`, on top of them. That
      changes nothing exactly if what both have written is where it was. */
  lemma {:induction false} ReplayedLateIff(txs: seq<Tx>, again: seq<Tx>, newer: seq<Tx>, compact: seq<Tx>,
                                           table: seq<nat>, size: nat)
    requires HistoryOk(txs) && HistoryOk(again) && HistoryOk(newer) && HistoryOk(txs + again)
    requires Agrees(table, size, txs + again) && Describes(compact, table, size)
    ensures HistoryOk(compact + newer) && HistoryOk(compact + newer + again)
    ensures SameMapping(compact + newer + again, compact + newer) <==>
              forall v: nat | Touches(newer, v) && Touches(again, v) :: LookupFrom(newer, v, 0) == Lookup(compact, v)
  {
    LookupConcat(compact, newer, 0);
    LookupConcat(compact + newer, again, 0);
    forall v: nat ensures Lookup(compact + newer + again, v) == Lookup(compact + newer, v) <==>
        (Touches(newer, v) && Touches(again, v) ==> LookupFrom(newer, v, 0) == Lookup(compact, v))
    {
      LateAt(txs, again, newer, compact, table, size, v);
    }
  }

  lemma {:induction false} LateAt(txs: seq<Tx>, again: seq<Tx>, newer: seq<Tx>, compact: seq<Tx>,
                                  table: seq<nat>, size: nat, v: nat)
    requires HistoryOk(txs) && HistoryOk(again) && HistoryOk(newer) && HistoryOk(txs + again)
    requires Agrees(table, size, txs + again) && Describes(compact, table, size)
    ensures HistoryOk(compact + newer) && HistoryOk(compact + newer + again)
    ensures Lookup(compact + newer + again, v) == Lookup(compact + newer, v) <==>
              (Touches(newer, v) && Touches(again, v) ==> LookupFrom(newer, v, 0) == Lookup(compact, v))
  {
    assert Lookup(compact, v) == At(table, v) == Lookup(txs + again, v);
    LookupConcat(txs, again, v);
    LookupConcat(compact, newer, v);
    LookupConcat(compact + newer, again, v);
    FromTouches(again, v, Lookup(compact + newer, v), Lookup(txs, v));
    FromTouches(newer, v, Lookup(compact, v), 0);
  }

  /** For writes to new blocks: exactly if no block is written by both. */
  lemma {:induction false} ReplayedLateWrites(txs: seq<Tx>, again: seq<Tx>, newer: seq<Tx>, compact: seq<Tx>,
                                              table: seq<nat>, size: nat)
    requires HistoryOk(txs) && HistoryOk(again) && HistoryOk(txs + again)
    requires Agrees(table, size, txs + again) && Describes(compact, table, size)
    requires forall i | 0 <= i < |newer| :: MapsAway(txs + again, newer[i])
    ensures HistoryOk(newer) && HistoryOk(compact + newer) && HistoryOk(compact + newer + again)
    ensures SameMapping(compact + newer + again, compact + newer) <==>
              forall v: nat :: !(Touches(newer, v) && Touches(again, v))
  {
    AllOk(txs + again, newer);
    ReplayedLateIff(txs, again, newer, compact, table, size);
    forall v: nat ensures Touches(newer, v) ==> LookupFrom(newer, v, 0) != Lookup(compact, v) {
      FromAway(txs + again, newer, v, 0);
      assert Lookup(compact, v) == At(table, v) == Lookup(txs + again, v);
    }
  }

  /** The file of one block, collected and then written to: the new write, to block
      9, is undone by the entry that the collection had already taken in. */
  lemma LateExample()
    ensures var again, newer, compact := [InlineTx(1, 0, 5)], [InlineTx(1, 0, 9)], [InlineTx(1, 0, 5)];
            && Emit([5], BLOCK_SIZE, 0, 1) == compact && Describes(compact, [5], BLOCK_SIZE)
            && HistoryOk(compact + newer) && HistoryOk(compact + newer + again)
            && Lookup(compact + newer, 0) == 9 && Lookup(compact + newer + again, 0) == 5
  {
    var again, newer, compact := [InlineTx(1, 0, 5)], [InlineTx(1, 0, 9)], [InlineTx(1, 0, 5)];
    CompactionIff([5], BLOCK_SIZE);
    LookupAppend(compact, newer[0], 0);
    LookupAppend(compact + newer, again[0], 0);
  }

  /* Main results. */

  /** With nothing stale behind the new entries, and nothing written since, a table
      opened after the collection is the one that was collected. */
  lemma {:induction false} CollectedReplay(blocks: map<nat, TxBlock>, mem: map<nat, TxBlock>, es: seq<TxEntry>,
                                           news: seq<nat>, tail: nat, meta: TxBlock, logs: Mem,
                                           paths: seq<seq<Node>>, before: seq<Tx>, table: seq<nat>, size: nat)
    requires |es| % TX_SLOTS != 0 && FreshBlocks(mem, news) && |news| == ListLength(|es|) && tail != 0
    requires Spells(blocks, mem, es, |es|, news, |news| - 1, tail)
    requires 0 in blocks && blocks[0] == CollectedMeta(meta, news[0])
    requires |es| % TX_SLOTS >= LAST_LINE || mem[news[|news| - 1]].slots[|es| % TX_SLOTS].None?
    requires HistoryOk(before) && Agrees(table, size, before) && LogMeans(logs, es, paths, Emit(table, size, 0, 1))
    requires Describes(Emit(table, size, 0, 1), table, size)
    ensures var txs := DummyTxs() + Emit(table, size, 0, 1);
            && LogMeans(logs, Recovered(blocks, 0), seq(META_SLOTS, _ => []) + paths, txs)
            && HistoryOk(txs) && SameMapping(txs, before) && SizeOf(txs) == SizeOf(before)
  {
    var compact := Emit(table, size, 0, 1);
    ReplaySeesIff(blocks, mem, es, news, tail, meta);
    DummiesMeanNothing(logs, es, paths, compact, 0);
    forall v: nat ensures Lookup(DummyTxs() + compact, v) == Lookup(before, v) {
      DummiesMeanNothing(logs, es, paths, compact, v);
      assert Lookup(compact, v) == At(table, v) == Lookup(before, v);
    }
  }

  /** Blocks of which no two neighbours can share an entry. */
  predicate Scattered(table: seq<nat>, size: nat)
  {
    forall i: nat | 1 <= i < BlocksFor(size) :: At(table, i) != 0 && At(table, i) != At(table, i - 1) + 1
  }

  lemma {:induction false} ScatteredEmits(table: seq<nat>, size: nat, i: nat)
    requires Scattered(table, size) && 1 <= i <= BlocksFor(size)
    ensures |Emit(table, size, i - 1, i)| == BlocksFor(size) - (i - 1)
    decreases BlocksFor(size) - i
  {
    if i < BlocksFor(size) { ScatteredEmits(table, size, i + 1); }
  }

  /** A file of 510 scattered blocks makes a list whose last block is full, and so
      leads to block 1. */
  lemma FullListExample()
    ensures var table, size := seq(TX_SLOTS, i => 2 * i + 2), TX_SLOTS * BLOCK_SIZE;
            Bounded(table, size) && HoleFree(table, size) && |Emit(table, size, 0, 1)| % TX_SLOTS == 0
  {
    var table, size := seq(TX_SLOTS, i => 2 * i + 2), TX_SLOTS * BLOCK_SIZE;
    ScatteredEmits(table, size, 1);
  }
}
