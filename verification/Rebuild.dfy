/** Rebuilding the bitmap of a file whose history has been collected: the replay does
    not come to the old tail block, and so marks neither that block nor what only its
    entries use. */
module Rebuild {
  import opened Layout
  import opened Entry
  import opened Alloc
  import opened Replay
  import opened LogChain
  import opened TxLog
  import opened TxLogSafety
  import opened BlkTable
  import opened Recovery
  import opened NewList
  import opened NewHistory

  /* The new list as a log. */

  /** The blocks that a replay of a collected file passes. */
  function NewChain(news: seq<nat>): seq<nat> { [0] + news }

  /** The filled slots of the `j`-th new block. */
  lemma {:induction false} NewSlots(blocks: map<nat, TxBlock>, mem: map<nat, TxBlock>, es: seq<TxEntry>, n: nat,
                                    news: seq<nat>, last: nat, tail: nat, j: nat, lo: nat, hi: nat)
    requires FreshBlocks(mem, news) && j <= last < |news| && n == |es|
    requires HoldsAt(blocks, mem, es, n, news, last, tail, j)
    requires lo == TX_SLOTS * j && lo < n && hi == Min(lo + TX_SLOTS, n)
    ensures NodeOk(blocks, news[j], j + 1)
    ensures Filled(SlotsOf(blocks, news[j])) == es[lo..hi] + Filled(Zeroed(mem[news[j]].slots)[hi - lo..])
    ensures hi == lo + TX_SLOTS ==> Filled(SlotsOf(blocks, news[j])) == es[lo..hi]
    ensures Filled(SlotsOf(blocks, news[j])) != []
  {
    ReplayBlock(blocks[news[j]].slots, es, mem[news[j]].slots, j, lo, hi);
  }

  lemma {:induction false} LogNext(blocks: map<nat, TxBlock>, chain: seq<nat>, j: nat)
    requires j < |chain|
    ensures Log(blocks, chain[..j + 1]) == Log(blocks, chain[..j]) + Filled(SlotsOf(blocks, chain[j]))
  {
    assert chain[..j + 1][..j] == chain[..j];
  }

  lemma Grown(d: seq<TxEntry>, es: seq<TxEntry>, from: nat, to: nat)
    requires from <= to <= |es|
    ensures d + es[..from] + es[from..to] == d + es[..to]
  {
  }

  /** So far the log holds the dummy entries and the entries of the full blocks. */
  lemma {:induction false} LogSoFar(blocks: map<nat, TxBlock>, mem: map<nat, TxBlock>, es: seq<TxEntry>, n: nat,
                                    news: seq<nat>, last: nat, tail: nat, meta: TxBlock, j: nat, lo: nat)
    requires FreshBlocks(mem, news) && j <= last == |news| - 1 && n == |es| && TX_SLOTS * last < n
    requires forall i | 0 <= i <= last :: HoldsAt(blocks, mem, es, n, news, last, tail, i)
    requires 0 in blocks && blocks[0] == CollectedMeta(meta, news[0]) && lo == TX_SLOTS * j
    ensures lo <= n && Log(blocks, NewChain(news)[..j + 1]) == Dummies() + es[..lo]
  {
    var chain := NewChain(news);
    LogNext(blocks, chain, j);
    if j == 0 {
      MetaFilled(meta, news[0]);
      assert chain[..0] == [] && es[..0] == [];
    } else {
      var from := lo - TX_SLOTS;
      LogSoFar(blocks, mem, es, n, news, last, tail, meta, j - 1, from);
      assert HoldsAt(blocks, mem, es, n, news, last, tail, j - 1) && chain[j] == news[j - 1];
      NewSlots(blocks, mem, es, n, news, last, tail, j - 1, from, lo);
      Grown(Dummies(), es, from, lo);
    }
  }

  /** What a replay of a collected file passes: the meta block and the new list. */
  lemma {:induction false} CollectedIsLog(blocks: map<nat, TxBlock>, mem: map<nat, TxBlock>, es: seq<TxEntry>,
                                          news: seq<nat>, tail: nat, meta: TxBlock)
    requires |es| % TX_SLOTS != 0 && FreshBlocks(mem, news) && |news| == ListLength(|es|) && meta.txSeq == 0
    requires Spells(blocks, mem, es, |es|, news, |news| - 1, tail)
    requires 0 in blocks && blocks[0] == CollectedMeta(meta, news[0])
    ensures IsLog(blocks, NewChain(news))
    ensures var stale := mem[news[|news| - 1]].slots;
            Log(blocks, NewChain(news)) == Dummies() + es + Filled(Zeroed(stale)[|es| % TX_SLOTS..])
  {
    var n, last := |es|, |news| - 1;
    var lo := TX_SLOTS * last;
    forall i | 0 <= i <= last ensures HoldsAt(blocks, mem, es, n, news, last, tail, i) {}
    Remainder(n, last, lo);
    NewLog(blocks, mem, es, n, news, last, tail, meta, lo);
    NewLinks(blocks, mem, es, n, news, last, tail, meta);
  }

  lemma {:induction false} NewLog(blocks: map<nat, TxBlock>, mem: map<nat, TxBlock>, es: seq<TxEntry>, n: nat,
                                  news: seq<nat>, last: nat, tail: nat, meta: TxBlock, lo: nat)
    requires FreshBlocks(mem, news) && last == |news| - 1 && n == |es| && lo == TX_SLOTS * last
    requires lo < n < lo + TX_SLOTS && forall i | 0 <= i <= last :: HoldsAt(blocks, mem, es, n, news, last, tail, i)
    requires 0 in blocks && blocks[0] == CollectedMeta(meta, news[0])
    ensures Log(blocks, NewChain(news)) == Dummies() + es + Filled(Zeroed(mem[news[last]].slots)[n - lo..])
    ensures |Filled(SlotsOf(blocks, news[last]))| < TX_SLOTS
  {
    var chain, rest := NewChain(news), Filled(Zeroed(mem[news[last]].slots)[n - lo..]);
    LogSoFar(blocks, mem, es, n, news, last, tail, meta, last, lo);
    NewLast(blocks, mem, es, n, news, last, tail, lo);
    LastJoins(blocks, chain, last + 1, Dummies(), es, lo, rest);
  }

  lemma {:induction false} NewLast(blocks: map<nat, TxBlock>, mem: map<nat, TxBlock>, es: seq<TxEntry>, n: nat,
                                   news: seq<nat>, last: nat, tail: nat, lo: nat)
    requires FreshBlocks(mem, news) && last < |news| && n == |es| && lo == TX_SLOTS * last && lo < n < lo + TX_SLOTS
    requires HoldsAt(blocks, mem, es, n, news, last, tail, last)
    ensures var rest := Filled(Zeroed(mem[news[last]].slots)[n - lo..]);
            Filled(SlotsOf(blocks, news[last])) == es[lo..] + rest && |es[lo..] + rest| < TX_SLOTS
  {
    NewSlots(blocks, mem, es, n, news, last, tail, last, lo, n);
    assert es[lo..n] == es[lo..];
    NeverFull(mem[news[last]].slots, n - lo);
  }

  lemma {:induction false} LastJoins(blocks: map<nat, TxBlock>, chain: seq<nat>, k: nat, d: seq<TxEntry>,
                                     es: seq<TxEntry>, lo: nat, rest: seq<TxEntry>)
    requires |chain| == k + 1 && lo <= |es| && Log(blocks, chain[..k]) == d + es[..lo]
    requires Filled(SlotsOf(blocks, chain[k])) == es[lo..] + rest
    ensures Log(blocks, chain) == d + es + rest
  {
    LogNext(blocks, chain, k);
    assert chain[..k + 1] == chain;
    Joined(d, es, lo, rest);
  }

  lemma Joined(d: seq<TxEntry>, es: seq<TxEntry>, lo: nat, rest: seq<TxEntry>)
    requires lo <= |es|
    ensures d + es[..lo] + (es[lo..] + rest) == d + es + rest
  {
    assert es == es[..lo] + es[lo..];
  }

  lemma NewLinks(blocks: map<nat, TxBlock>, mem: map<nat, TxBlock>, es: seq<TxEntry>, n: nat, news: seq<nat>,
                 last: nat, tail: nat, meta: TxBlock)
    requires FreshBlocks(mem, news) && last == |news| - 1 && n == |es| && meta.txSeq == 0
    requires TX_SLOTS * last < n
    requires forall i | 0 <= i <= last :: HoldsAt(blocks, mem, es, n, news, last, tail, i)
    requires 0 in blocks && blocks[0] == CollectedMeta(meta, news[0])
    requires |Filled(SlotsOf(blocks, news[last]))| < TX_SLOTS
    ensures IsLog(blocks, NewChain(news))
  {
    var chain := NewChain(news);
    forall i | 0 <= i < |chain| ensures NodeOk(blocks, chain[i], i) {
      ChainNode(blocks, mem, es, n, news, last, tail, meta, i);
    }
    forall i, k | 0 <= i && k == i + 1 && k < |chain| ensures LinkOk(blocks, chain[i], chain[k]) {
      ChainNode(blocks, mem, es, n, news, last, tail, meta, i);
    }
  }

  lemma ChainNode(blocks: map<nat, TxBlock>, mem: map<nat, TxBlock>, es: seq<TxEntry>, n: nat, news: seq<nat>,
                  last: nat, tail: nat, meta: TxBlock, i: nat)
    requires FreshBlocks(mem, news) && last == |news| - 1 && n == |es| && meta.txSeq == 0
    requires TX_SLOTS * last < n && i <= |news|
    requires forall i | 0 <= i <= last :: HoldsAt(blocks, mem, es, n, news, last, tail, i)
    requires 0 in blocks && blocks[0] == CollectedMeta(meta, news[0])
    ensures var chain := NewChain(news);
            NodeOk(blocks, chain[i], i) && (i < |news| ==> LinkOk(blocks, chain[i], chain[i + 1]))
  {
    if i == 0 {
      MetaFilled(meta, news[0]);
    } else {
      NewNode(blocks, mem, es, n, news, last, tail, i - 1);
    }
  }

  lemma NewNode(blocks: map<nat, TxBlock>, mem: map<nat, TxBlock>, es: seq<TxEntry>, n: nat, news: seq<nat>,
                last: nat, tail: nat, j: nat)
    requires FreshBlocks(mem, news) && j <= last == |news| - 1 && n == |es| && TX_SLOTS * last < n
    requires HoldsAt(blocks, mem, es, n, news, last, tail, j)
    ensures NodeOk(blocks, news[j], j + 1) && Filled(SlotsOf(blocks, news[j])) != []
    ensures j < last ==> LinkOk(blocks, news[j], news[j + 1])
  {
    var lo := TX_SLOTS * j;
    NewSlots(blocks, mem, es, n, news, last, tail, j, lo, Min(lo + TX_SLOTS, n));
  }

  /* What is marked. */

  /** Block `x` belongs to the file as its new history describes it. */
  ghost predicate UsedByNew(news: seq<nat>, paths: seq<seq<Node>>, compact: seq<Tx>, x: nat)
    requires HistoryOk(compact)
  {
    x == 0 || x in news || x in LogBlocks(paths) || exists v: nat :: Lookup(compact, v) == x
  }

  /** The replay of a collected file. */
  function NewHist(news: seq<nat>, paths: seq<seq<Node>>, compact: seq<Tx>): Hist
  {
    Hist(NewChain(news), seq(META_SLOTS, _ => []) + paths, DummyTxs() + compact)
  }

  lemma {:induction false} NoLogBlocks(none: seq<seq<Node>>, paths: seq<seq<Node>>)
    requires forall i | 0 <= i < |none| :: none[i] == []
    ensures LogBlocks(none + paths) == LogBlocks(paths)
  {
    if paths == [] {
      assert none + paths == none;
      NoPaths(none);
    } else {
      var n := |paths| - 1;
      NoLogBlocks(none, paths[..n]);
      assert (none + paths)[..|none| + n] == none + paths[..n];
    }
  }

  /** What the replay of a collected file has seen. */
  lemma {:induction false} NewLogOk(blocks: map<nat, TxBlock>, mem: map<nat, TxBlock>, es: seq<TxEntry>, news: seq<nat>,
                                    tail: nat, meta: TxBlock, logs: Mem, paths: seq<seq<Node>>, compact: seq<Tx>)
    requires |es| % TX_SLOTS != 0 && FreshBlocks(mem, news) && |news| == ListLength(|es|) && meta.txSeq == 0
    requires Spells(blocks, mem, es, |es|, news, |news| - 1, tail)
    requires 0 in blocks && blocks[0] == CollectedMeta(meta, news[0])
    requires |es| % TX_SLOTS >= LAST_LINE || mem[news[|news| - 1]].slots[|es| % TX_SLOTS].None?
    requires LogMeans(logs, es, paths, compact) && HistoryOk(compact)
    ensures LogOk(blocks, logs, NewHist(news, paths, compact))
  {
    CollectedIsLog(blocks, mem, es, news, tail, meta);
    NeverFull(mem[news[|news| - 1]].slots, |es| % TX_SLOTS);
    assert Dummies() + es + [] == Dummies() + es;
    DummiesMeanNothing(logs, es, paths, compact, 0);
  }

  lemma NewReserved(blocks: map<nat, TxBlock>, logs: Mem, es: seq<TxEntry>, news: seq<nat>, paths: seq<seq<Node>>,
                    compact: seq<Tx>, x: nat)
    requires LogMeans(logs, es, paths, compact) && HistoryOk(compact) && HistoryOk(DummyTxs() + compact)
    requires forall j | 0 <= j < |news| :: Filled(SlotsOf(blocks, news[j])) != []
    ensures Reserved(blocks, NewHist(news, paths, compact), x) <==> UsedByNew(news, paths, compact, x)
  {
    var h := NewHist(news, paths, compact);
    NoLogBlocks(seq(META_SLOTS, _ => []), paths);
    forall v: nat ensures Lookup(h.txs, v) == Lookup(compact, v) { DummiesMeanNothing(logs, es, paths, compact, v); }
    if x in news {
      var j :| 0 <= j < |news| && news[j] == x;
      assert h.chain[j + 1] == x;
    }
  }

  lemma NewBlocksHold(blocks: map<nat, TxBlock>, mem: map<nat, TxBlock>, es: seq<TxEntry>, news: seq<nat>, tail: nat)
    requires es != [] && FreshBlocks(mem, news) && |news| == ListLength(|es|)
    requires Spells(blocks, mem, es, |es|, news, |news| - 1, tail)
    ensures forall j | 0 <= j < |news| :: Filled(SlotsOf(blocks, news[j])) != []
  {
    var n, last := |es|, |news| - 1;
    forall j | 0 <= j < |news| ensures Filled(SlotsOf(blocks, news[j])) != [] {
      assert HoldsAt(blocks, mem, es, n, news, last, tail, j);
      NewNode(blocks, mem, es, n, news, last, tail, j);
    }
  }

  /** After a collection and a rebuild of the bitmap, a block can be handed out exactly
      if the new history does not use it: the old tail block can, and so can every
      block that only entries behind it use. */
  method RebuildAndTake(table: BlkTable, blocks: map<nat, TxBlock>, logs: Mem, bitmap: BitmapMgr, x: nat,
                        ghost mem: map<nat, TxBlock>, ghost es: seq<TxEntry>, ghost news: seq<nat>, ghost tail: nat,
                        ghost meta: TxBlock, ghost paths: seq<seq<Node>>, ghost compact: seq<Tx>)
    returns (yes: bool)
    requires |es| % TX_SLOTS != 0 && FreshBlocks(mem, news) && |news| == ListLength(|es|) && meta.txSeq == 0
    requires Spells(blocks, mem, es, |es|, news, |news| - 1, tail)
    requires 0 in blocks && blocks[0] == CollectedMeta(meta, news[0])
    requires |es| % TX_SLOTS >= LAST_LINE || mem[news[|news| - 1]].slots[|es| % TX_SLOTS].None?
    requires LogMeans(logs, es, paths, compact) && HistoryOk(compact)
    requires table.cursor == Cursor(0, 0) && Agrees(table.table, table.fileSize, [])
    requires Coverable(|bitmap.entries|, NewHist(news, paths, compact)) && x < CHUNK * |bitmap.entries|
    requires forall y: nat | y < CHUNK * |bitmap.entries| :: BitmapCount(bitmap.entries, y) == 1
    modifies table, bitmap
    ensures yes <==> !UsedByNew(news, paths, compact, x)
  {
    NewLogOk(blocks, mem, es, news, tail, meta, logs, paths, compact);
    NewBlocksHold(blocks, mem, es, news, tail);
    NewReserved(blocks, logs, es, news, paths, compact, x);
    yes := RecoverAndTake(table, blocks, logs, bitmap, x, NewHist(news, paths, compact));
  }

  /** A file of one block, collected into block 7 before the old tail block 9, to which
      somebody then commits a write to block 6: neither 9 nor 6 is marked. */
  lemma {:induction false} TailIsHandedOut()
    ensures !UsedByNew([7], [[]], [InlineTx(1, 0, 5)], 9) && !UsedByNew([7], [[]], [InlineTx(1, 0, 5)], 6)
    ensures HistoryOk([InlineTx(1, 0, 5), InlineTx(1, 0, 6)])
    ensures Lookup([InlineTx(1, 0, 5), InlineTx(1, 0, 6)], 0) == 6
  {
    NoPaths([[]]);
    forall v: nat ensures Lookup([InlineTx(1, 0, 5)], v) == if v == 0 then 5 else 0 { OneBlock(v); }
    LookupAppend([InlineTx(1, 0, 5)], InlineTx(1, 0, 6), 0);
    assert [InlineTx(1, 0, 5)] + [InlineTx(1, 0, 6)] == [InlineTx(1, 0, 5), InlineTx(1, 0, 6)];
  }

  lemma {:induction false} OneBlock(v: nat)
    ensures Lookup([InlineTx(1, 0, 5)], v) == if v == 0 then 5 else 0
  {
    LookupAppend([], InlineTx(1, 0, 5), v);
    assert [] + [InlineTx(1, 0, 5)] == [InlineTx(1, 0, 5)];
  }
}
