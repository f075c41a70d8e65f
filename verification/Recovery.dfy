/** Opening a file whose bitmap is empty: the bitmap is rebuilt from the log. */
module Recovery {
  import opened Layout
  import opened Entry
  import opened Alloc
  import opened Replay
  import opened LogChain
  import opened TxLog
  import opened TxLogSafety
  import opened BlkTable

  ghost predicate Live(h: Hist, x: nat)
    requires HistoryOk(h.txs)
  {
    exists v: nat :: Lookup(h.txs, v) == x
  }

  /** Block `x` belongs to the file: the meta block, a log block, the block of a
      transaction, or a transaction block that holds an entry. */
  ghost predicate Reserved(blocks: map<nat, TxBlock>, h: Hist, x: nat)
    requires HistoryOk(h.txs)
  {
    || x == 0
    || x in LogBlocks(h.paths)
    || Live(h, x)
    || (exists i | 0 <= i < |h.chain| :: h.chain[i] == x && Filled(SlotsOf(blocks, x)) != [])
  }

  /** Rebuilds the bitmap while bringing the table up to date. */
  method Recover(table: BlkTable, blocks: map<nat, TxBlock>, mem: Mem, bitmap: BitmapMgr, ghost h: Hist)
    returns (size: nat)
    requires LogOk(blocks, mem, h) && table.cursor == Cursor(0, 0) && Agrees(table.table, table.fileSize, [])
    requires Coverable(|bitmap.entries|, h) && |bitmap.entries| > 0
    requires forall x: nat | x < CHUNK * |bitmap.entries| :: BitmapCount(bitmap.entries, x) == 1
    modifies table, bitmap
    ensures Agrees(table.table, table.fileSize, h.txs) && size == table.fileSize == SizeOf(h.txs)
    ensures |bitmap.entries| == |old(bitmap.entries)|
    ensures forall x: nat | x < CHUNK * |bitmap.entries| ::
        BitmapCount(bitmap.entries, x) == 0 <==> Reserved(blocks, h, x)
  {
    ghost var e0 := bitmap.entries;
    StartUpTo(blocks, h, table.table, table.fileSize);
    size := table.UpdateUnsafe(blocks, mem, bitmap, h);
    ghost var e1 := bitmap.entries;
    bitmap.SetAllocated(0);
    assert h.txs[..|h.txs|] == h.txs;
    forall x: nat | x < CHUNK * |e0|
      ensures BitmapCount(bitmap.entries, x) == 0 <==> Reserved(blocks, h, x)
    {
      assert BitmapCount(e0, x) == 1;
      ReservedIff(blocks, mem, h, table.cursor, table.table, x);
    }
  }

  lemma StartUpTo(blocks: map<nat, TxBlock>, h: Hist, table: seq<nat>, size: nat)
    requires IsLog(blocks, h.chain) && HistoryOk(h.txs) && Agrees(table, size, [])
    ensures UpTo(blocks, h, Cursor(0, 0), table, size)
  {
    assert NodeOk(blocks, h.chain[0], 0);
    assert h.chain[..0] == [] && h.txs[..0] == [];
  }

  /** A cursor at the end of the log is in the last block, or has just left the
      block before an empty last one. */
  lemma EndOfLog(blocks: map<nat, TxBlock>, chain: seq<nat>, c: Cursor)
    requires IsLog(blocks, chain) && CursorOk(blocks, chain, c) && Pos(blocks, chain, c) == |Log(blocks, chain)|
    ensures var n, last := blocks[c.block].txSeq, |chain| - 1;
            || (n == last && c.local == |Filled(SlotsOf(blocks, chain[last]))|)
            || (n + 1 == last && c.local > 0 && Filled(SlotsOf(blocks, chain[last])) == [])
  {
    var n := blocks[c.block].txSeq;
    CapIsReached(blocks, chain, c);
    StartNext(blocks, chain, n);
    assert chain[..|chain|] == chain;
    FullButLast(blocks, chain, n);
    if n < |chain| - 1 { AfterFull(blocks, chain, n); }
  }

  /** What is in the log up to a block with a successor, and in the next one. */
  lemma {:induction false} AfterFull(blocks: map<nat, TxBlock>, chain: seq<nat>, n: nat)
    requires IsLog(blocks, chain) && n + 1 < |chain|
    ensures Start(blocks, chain, n) + Cap(chain[n])
        + (if n + 2 < |chain| then Cap(chain[n + 1]) else |Filled(SlotsOf(blocks, chain[n + 1]))|)
         <= |Log(blocks, chain)|
  {
    var next, last := n + 1, |chain| - 1;
    PastBlock(blocks, chain, n, next);
    assert Start(blocks, chain, last) + |Filled(SlotsOf(blocks, chain[last]))| == |Log(blocks, chain)| by {
      LogEnds(blocks, chain);
    }
    if next < last { PastBlock(blocks, chain, next, last); }
  }

  /** It has passed exactly the blocks that hold an entry. */
  lemma PassedIff(blocks: map<nat, TxBlock>, chain: seq<nat>, c: Cursor, i: nat)
    requires IsLog(blocks, chain) && CursorOk(blocks, chain, c) && Pos(blocks, chain, c) == |Log(blocks, chain)|
        && i < |chain|
    ensures i < Reached(blocks, c) <==> Filled(SlotsOf(blocks, chain[i])) != []
  {
    EndOfLog(blocks, chain, c);
    FullButLast(blocks, chain, i);
  }

  lemma FullButLast(blocks: map<nat, TxBlock>, chain: seq<nat>, i: nat)
    requires IsLog(blocks, chain) && i < |chain|
    ensures chain[i] in blocks && (i < |chain| - 1 ==> |Filled(blocks[chain[i]].slots)| == Cap(chain[i]))
  {
    assert NodeOk(blocks, chain[i], i);
    if i < |chain| - 1 { assert LinkOk(blocks, chain[i], chain[i + 1]); }
  }

  lemma ReservedIff(blocks: map<nat, TxBlock>, mem: Mem, h: Hist, c: Cursor, table: seq<nat>, x: nat)
    requires LogOk(blocks, mem, h) && CursorOk(blocks, h.chain, c) && Pos(blocks, h.chain, c) == |h.txs|
    requires forall v: nat :: At(table, v) == Lookup(h.txs, v)
    ensures (x == 0 || x in MarksAt(h, Reached(blocks, c), |h.paths|) + Values(table)) <==> Reserved(blocks, h, x)
  {
    assert h.paths[..|h.paths|] == h.paths;
    if x in FirstBlocks(h.chain, Reached(blocks, c)) {
      var i :| 0 < i < Reached(blocks, c) && i < |h.chain| && h.chain[i] == x;
      PassedIff(blocks, h.chain, c, i);
    }
    if x in Values(table) {
      var v :| 0 <= v < |table| && table[v] == x;
      assert At(table, v) == Lookup(h.txs, v);
    }
    if Live(h, x) && x != 0 {
      var v: nat :| Lookup(h.txs, v) == x;
      assert At(table, v) == x;
    }
    if x != 0 && exists i | 0 <= i < |h.chain| :: h.chain[i] == x && Filled(SlotsOf(blocks, x)) != [] {
      var i :| 0 <= i < |h.chain| && h.chain[i] == x && Filled(SlotsOf(blocks, x)) != [];
      PassedIff(blocks, h.chain, c, i);
      assert x in FirstBlocks(h.chain, Reached(blocks, c));
    }
  }

  /* After recovery. */

  // The threads' free lists and the bitmap, and what is done to them: thread `t`
  // allocates `n` blocks, with a possible result, frees some, or gives all its
  // lists back to the bitmap.
  datatype Holding = Holding(lists: seq<seq<seq<nat>>>, entries: seq<Word>)
  datatype Call =
    | AllocCall(t: nat, n: nat, r: Option<nat>)
    | FreeCall(t: nat, block: nat, n: nat)
    | ReturnCall(t: nat)

  ghost predicate CallStep(h: Holding, call: Call, h': Holding)
  {
    && call.t < |h.lists| == |h'.lists| && |h.lists[call.t]| == |h'.lists[call.t]| == CHUNK
    && (forall u | 0 <= u < |h.lists| && u != call.t :: h'.lists[u] == h.lists[u])
    && var l, l' := h.lists[call.t], h'.lists[call.t];
       match call
       case AllocCall(_, n, r) => Conserved(l, h.entries, l', h'.entries, r, n)
       case FreeCall(_, b, n) => h'.entries == h.entries && Alloc.Kept(l, l', b, n, 0)
       case ReturnCall(_) => l' == l && GivenBack(l, h.entries, h'.entries)
  }

  ghost predicate CallRun(hs: seq<Holding>, calls: seq<Call>)
  {
    |hs| == |calls| + 1 && forall i, k | 0 <= i && k == i + 1 && k < |hs| :: CallStep(hs[i], calls[i], hs[k])
  }

  /** Block `x` is in nobody's lists and not in the bitmap. */
  ghost predicate Nowhere(h: Holding, x: nat)
  {
    forall u | 0 <= u < |h.lists| :: |h.lists[u]| == CHUNK && FreeCount(h.lists[u], h.entries, x) == 0
  }

  /** Whoever allocates or frees anything else leaves it so, and does not get it. */
  lemma NowhereStep(h: Holding, call: Call, h': Holding, x: nat)
    requires CallStep(h, call, h') && Nowhere(h, x) && (call.FreeCall? ==> !(call.block <= x < call.block + call.n))
    ensures Nowhere(h', x)
    ensures call.AllocCall? && call.r.Some? ==> !(call.r.value <= x < call.r.value + call.n)
  {
    var l, l' := h.lists[call.t], h'.lists[call.t];
    assert FreeCount(l, h.entries, x) == 0;
    match call
    case AllocCall(_, n, r) => assert FreeCount(l', h'.entries, x) + Taken(r, n, x) == FreeCount(l, h.entries, x);
    case FreeCall(_, b, n) =>
      assert ListsCount(l', CHUNK, x) + In(b, 0, x) == ListsCount(l, CHUNK, x) + In(b, n, x);
    case ReturnCall(_) =>
      assert BitmapCount(h'.entries, x) == if HomeBlock(l, CHUNK, 0, x) then 1 else BitmapCount(h.entries, x);
      if HomeBlock(l, CHUNK, 0, x) { HomeIsListed(l, x); }
  }

  /** A block marked at recovery is never handed out, whatever any thread allocates
      and whatever else is freed, until it is freed itself. */
  lemma {:induction false} NeverHandedOut(hs: seq<Holding>, calls: seq<Call>, x: nat, k: nat)
    requires CallRun(hs, calls) && k < |calls| && Nowhere(hs[0], x)
    requires forall i | 0 <= i <= k && calls[i].FreeCall? :: !(calls[i].block <= x < calls[i].block + calls[i].n)
    ensures Nowhere(hs[k], x)
    ensures calls[k].AllocCall? && calls[k].r.Some? ==> !(calls[k].r.value <= x < calls[k].r.value + calls[k].n)
  {
    assert CallStep(hs[k], calls[k], hs[k + 1]);
    if k > 0 {
      NeverHandedOut(hs, calls, x, k - 1);
      assert CallStep(hs[k - 1], calls[k - 1], hs[k]);
      NowhereStep(hs[k - 1], calls[k - 1], hs[k], x);
    }
    NowhereStep(hs[k], calls[k], hs[k + 1], x);
  }

  /* What recovery misses. */

  /** Block `i` of the chain is an empty last block that no entry uses. */
  ghost predicate Unmarked(blocks: map<nat, TxBlock>, h: Hist, i: nat)
    requires HistoryOk(h.txs) && i < |h.chain|
  {
    var x := h.chain[i];
    0 < i == |h.chain| - 1 && Filled(SlotsOf(blocks, x)) == [] && x !in LogBlocks(h.paths) && !Live(h, x)
  }

  /** All other blocks of the chain belong to the file, because only the last one
      can be empty. */
  lemma UnmarkedIff(blocks: map<nat, TxBlock>, mem: Mem, h: Hist, i: nat)
    requires LogOk(blocks, mem, h) && i < |h.chain|
    ensures !Reserved(blocks, h, h.chain[i]) <==> Unmarked(blocks, h, i)
  {
    FullButLast(blocks, h.chain, i);
    if i > 0 { assert LinkOk(blocks, h.chain[i - 1], h.chain[i]); }
  }

  /** After recovery, a block can be handed out exactly if nothing that the replay has
      seen uses it. */
  method RecoverAndTake(table: BlkTable, blocks: map<nat, TxBlock>, mem: Mem, bitmap: BitmapMgr, x: nat, ghost h: Hist)
    returns (yes: bool)
    requires LogOk(blocks, mem, h) && table.cursor == Cursor(0, 0) && Agrees(table.table, table.fileSize, [])
    requires Coverable(|bitmap.entries|, h) && x < CHUNK * |bitmap.entries|
    requires forall y: nat | y < CHUNK * |bitmap.entries| :: BitmapCount(bitmap.entries, y) == 1
    modifies table, bitmap
    ensures yes <==> !Reserved(blocks, h, x)
  {
    var size := Recover(table, blocks, mem, bitmap, h);
    var alloc := new BlockAllocator(bitmap);
    EmptyLists(alloc.lists, CHUNK, x);
    yes := alloc.HandsOut(x);
  }

  /** Of the blocks that the replay passes, that is so exactly for an empty last block
      that no entry uses. */
  method RecoverAndAlloc(table: BlkTable, blocks: map<nat, TxBlock>, mem: Mem, bitmap: BitmapMgr, x: nat, ghost h: Hist,
                         ghost i: nat)
    returns (yes: bool)
    requires LogOk(blocks, mem, h) && table.cursor == Cursor(0, 0) && Agrees(table.table, table.fileSize, [])
    requires Coverable(|bitmap.entries|, h) && |bitmap.entries| > 0 && i < |h.chain| && x == h.chain[i]
    requires forall y: nat | y < CHUNK * |bitmap.entries| :: BitmapCount(bitmap.entries, y) == 1
    modifies table, bitmap
    ensures yes <==> Unmarked(blocks, h, i)
  {
    ChainInRange(|bitmap.entries|, blocks, mem, h, i);
    UnmarkedIff(blocks, mem, h, i);
    yes := RecoverAndTake(table, blocks, mem, bitmap, x, h);
  }

  lemma ChainInRange(words: nat, blocks: map<nat, TxBlock>, mem: Mem, h: Hist, i: nat)
    requires LogOk(blocks, mem, h) && Coverable(words, h) && words > 0 && i < |h.chain|
    ensures h.chain[i] < CHUNK * words
  {
    if i > 0 {
      assert h.chain[i] in FirstBlocks(h.chain, |h.chain|);
      assert h.chain[i] in MarksAt(h, |h.chain|, |h.paths|);
    }
  }

  /* Such a log is the end of a run: one thread commits one-block writes until the
     meta block is full and links block 7. */

  ghost predicate Reachable(s: State)
  {
    exists run: seq<State> :: TxLog.Run(run) && run[|run| - 1] == s
  }

  lemma StepOn(s: State, a: Action)
    requires Reachable(s) && Enabled(s, a)
    ensures Reachable(Do(s, a))
  {
    var run: seq<State> :| TxLog.Run(run) && run[|run| - 1] == s;
    var run' := run + [Do(s, a)];
    forall i | 0 <= i < |run'| - 1 ensures Next(run'[i], run'[i + 1]) {
      if i < |run| - 1 { assert Next(run[i], run[i + 1]); } else { assert run'[i] == s; }
    }
    assert run'[|run'| - 1] == Do(s, a);
  }

  /** The entry of a write to block `i` of the file. */
  function WriteEntry(i: nat): TxEntry { Inline(1, i, 100 + i) }

  function SlotsUpTo(k: nat): (slots: seq<Option<TxEntry>>)
    ensures |slots| == META_SLOTS
  {
    seq(META_SLOTS, i requires i >= 0 => if i < k then Some(WriteEntry(i)) else None)
  }

  /** After `k` writes. */
  function Written(k: nat): State
  {
    State(map[0 := TxBlock(SlotsUpTo(k), 0, 0)], {7}, [Thread(Cursor(0, k), 0, 0)])
  }

  lemma {:induction false} WrittenIsReachable(k: nat)
    requires k <= META_SLOTS
    ensures Reachable(Written(k))
  {
    if k == 0 {
      assert SlotsUpTo(0) == EmptyBlock(0, 0).slots;
      assert TxLog.Run([Written(0)]) && [Written(0)][0] == Written(0);
    } else {
      WrittenIsReachable(k - 1);
      AppendOne(k - 1);
      StepOn(Written(k - 1), Append(0, WriteEntry(k - 1)));
      AdvanceOne(k);
      StepOn(Filling(k), Advance(0));
    }
  }

  /** The same with the cursor still at the last entry. */
  function Filling(k: nat): State
    requires k > 0
  {
    State(map[0 := TxBlock(SlotsUpTo(k), 0, 0)], {7}, [Thread(Cursor(0, k - 1), 0, 0)])
  }

  lemma AppendOne(k: nat)
    requires k < META_SLOTS
    ensures Enabled(Written(k), Append(0, WriteEntry(k))) && Do(Written(k), Append(0, WriteEntry(k))) == Filling(k + 1)
  {
    assert SlotsUpTo(k)[k := Some(WriteEntry(k))] == SlotsUpTo(k + 1);
  }

  lemma AdvanceOne(k: nat)
    requires 0 < k <= META_SLOTS
    ensures Enabled(Filling(k), Advance(0)) && Do(Filling(k), Advance(0)) == Written(k)
  {
  }

  function FullBlocks(): map<nat, TxBlock>
  {
    map[0 := TxBlock(SlotsUpTo(META_SLOTS), 7, 0), 7 := EmptyBlock(7, 1)]
  }

  lemma LinkedIsReachable() returns (s: State)
    ensures Reachable(s) && s.blocks == FullBlocks()
  {
    WrittenIsReachable(META_SLOTS);
    var s0 := Written(META_SLOTS);
    StepOn(s0, Take(0, 7));
    var s1 := Do(s0, Take(0, 7));
    StepOn(s1, Link(0));
    s := Do(s1, Link(0));
  }

  function WriteEntries(): seq<TxEntry> { seq(META_SLOTS, i requires i >= 0 => WriteEntry(i)) }

  lemma {:induction false} FullChain()
    ensures IsChain(FullBlocks(), [0, 7]) && Log(FullBlocks(), [0, 7]) == WriteEntries()
        && Filled(SlotsOf(FullBlocks(), 7)) == []
  {
    var blocks, chain := FullBlocks(), [0, 7];
    FilledIs(blocks[0].slots, WriteEntries());
    EmptyIsEmpty(7, 1);
    assert NodeOk(blocks, 0, 0) && NodeOk(blocks, 7, 1) && LinkOk(blocks, 0, 7);
    assert chain[..1] == [0] && [0][..0] == [];
    assert Log(blocks, [0]) == [] + Filled(SlotsOf(blocks, 0));
    assert Log(blocks, chain) == Log(blocks, [0]) + [];
  }

  function WriteTxs(k: nat): (txs: seq<Tx>)
    ensures |txs| == k && HistoryOk(txs)
  {
    seq(k, i requires i >= 0 => InlineTx(1, i, 100 + i))
  }

  lemma {:induction false} WriteTxsMap(k: nat, v: nat)
    ensures Lookup(WriteTxs(k), v) == if v < k then 100 + v else 0
  {
    if k > 0 {
      WriteTxsMap(k - 1, v);
      assert WriteTxs(k)[..k - 1] == WriteTxs(k - 1);
    }
  }

  /** A reachable log whose last block recovery does not mark. */
  lemma LinkedButFree() returns (s: State, h: Hist)
    ensures Reachable(s) && LogOk(s.blocks, map[], h) && h.chain == [0, 7] && Unmarked(s.blocks, h, 1)
  {
    s := LinkedIsReachable();
    h := Hist([0, 7], seq(META_SLOTS, _ => []), WriteTxs(META_SLOTS));
    FullChain();
    FullMeans(h.paths);
    NoPaths(h.paths);
    NeverSeven(h);
  }

  lemma FullMeans(paths: seq<seq<Node>>)
    requires |paths| == META_SLOTS && forall i | 0 <= i < |paths| :: paths[i] == []
    ensures LogMeans(map[], WriteEntries(), paths, WriteTxs(META_SLOTS))
  {
  }

  lemma NeverSeven(h: Hist)
    requires h.txs == WriteTxs(META_SLOTS)
    ensures !Live(h, 7)
  {
    forall v: nat ensures Lookup(h.txs, v) != 7 { WriteTxsMap(META_SLOTS, v); }
  }

  lemma {:induction false} NoPaths(paths: seq<seq<Node>>)
    requires forall i | 0 <= i < |paths| :: paths[i] == []
    ensures LogBlocks(paths) == {}
  {
    if paths != [] { NoPaths(paths[..|paths| - 1]); }
  }
}
