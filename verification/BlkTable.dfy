/** The block table: the file's mapping and size, brought up to date by replaying
    the log from a saved cursor. */
module BlkTable {
  import opened Layout
  import opened Entry
  import opened Alloc
  import opened Replay
  import opened LogChain
  import opened TxLog
  import opened TxLogSafety

  const BLOCKS_PER_GROW: nat := 512

  /** The entry for `v`; 0 if it is not allocated yet. */
  function At(table: seq<nat>, v: nat): nat { if v < |table| then table[v] else 0 }

  /** `n` cells from `begin` on have been set to `cells`. */
  ghost predicate CellsSet(was: seq<nat>, table: seq<nat>, cells: nat -> nat, begin: nat, n: nat)
  {
    forall v: nat :: At(table, v) == if Within(begin, n, v) then cells(v) else At(was, v)
  }

  lemma NextCellSet(was: seq<nat>, table: seq<nat>, cells: nat -> nat, begin: nat, n: nat)
    requires CellsSet(was, table, cells, begin, n) && begin + n < |table|
    ensures CellsSet(was, table[begin + n := cells(begin + n)], cells, begin, n + 1)
  {
    var table' := table[begin + n := cells(begin + n)];
    forall v: nat ensures At(table', v) == if Within(begin, n + 1, v) then cells(v) else At(was, v) {
      assert At(table, v) == if Within(begin, n, v) then cells(v) else At(was, v);
    }
  }

  /** The table changed as transaction `tx` demands. */
  ghost predicate Steps(table: seq<nat>, table': seq<nat>, tx: Tx)
    requires TxOk(tx)
  {
    forall v: nat :: At(table', v) == UnderTx(tx, v, At(table, v))
  }

  ghost predicate EntrySteps(table: seq<nat>, table': seq<nat>, e: LogEntry)
    requires EntryOk(e)
  {
    forall v: nat :: At(table', v) == Under(e, v, At(table, v))
  }

  /** Table and size are those of the history `txs`. */
  ghost predicate Agrees(table: seq<nat>, size: nat, txs: seq<Tx>)
    requires HistoryOk(txs)
  {
    size == SizeOf(txs) && forall v: nat :: At(table, v) == Lookup(txs, v)
  }

  lemma AgreesStep(table: seq<nat>, size: nat, txs: seq<Tx>, p: nat, table': seq<nat>)
    requires HistoryOk(txs) && p < |txs| && Agrees(table, size, txs[..p]) && Steps(table, table', txs[p])
    ensures Agrees(table', Grow(size, TxEnd(txs[p])), txs[..p + 1])
  {
    assert txs[..p] + [txs[p]] == txs[..p + 1];
    forall v: nat ensures At(table', v) == Lookup(txs[..p + 1], v) {
      LookupAppend(txs[..p], txs[p], v);
    }
    LookupAppend(txs[..p], txs[p], 0);
  }

  /** What a slot of the log stands for: an inline extent, or the log entries
      found at `path`. */
  ghost predicate Means(mem: Mem, e: TxEntry, path: seq<Node>, tx: Tx)
  {
    match e
    case Inline(n, v, l) => tx == InlineTx(n, v, l) && path == []
    case Indirect(b, off) =>
      && tx.ChainTx? && off % 4 == 0 && ChainAt(mem, path, tx.entries) && path[0] == Node(b, off / 4)
      && EntryEnd(tx.entries[|tx.entries| - 1]) >= 0
  }

  ghost predicate LogMeans(mem: Mem, log: seq<TxEntry>, paths: seq<seq<Node>>, txs: seq<Tx>)
  {
    |log| == |paths| == |txs| && forall i | 0 <= i < |log| :: Means(mem, log[i], paths[i], txs[i])
  }

  /* Marking a bitmap on the way. */

  ghost predicate Marked(e0: seq<Word>, e: seq<Word>, marks: set<nat>)
  {
    |e| == |e0| && forall x: nat :: BitmapCount(e, x) == if x in marks then 0 else BitmapCount(e0, x)
  }

  ghost function PathBlocks(path: seq<Node>): set<nat> { set i | 0 <= i < |path| :: path[i].block }

  ghost function LogBlocks(paths: seq<seq<Node>>): set<nat>
  {
    if paths == [] then {} else LogBlocks(paths[..|paths| - 1]) + PathBlocks(paths[|paths| - 1])
  }

  /** The first `n` blocks of a chain, without the meta block. */
  ghost function FirstBlocks(chain: seq<nat>, n: nat): set<nat> { set i | 0 < i < n && i < |chain| :: chain[i] }

  /** How many blocks of the chain have an entry before the cursor. */
  function Reached(blocks: map<nat, TxBlock>, c: Cursor): nat
    requires c.block in blocks
  {
    if c.local == 0 then blocks[c.block].txSeq else blocks[c.block].txSeq + 1
  }

  ghost function Values(table: seq<nat>): set<nat> { set i | 0 <= i < |table| :: table[i] }

  /** All blocks that the bitmap has bits for. */
  ghost predicate Mappable(words: nat, marks: set<nat>) { forall x | x in marks :: x / CHUNK < words }

  // What a log stands for: the blocks of its chain and, for every entry, where
  // its log entries are and what transaction it is.
  datatype Hist = Hist(chain: seq<nat>, paths: seq<seq<Node>>, txs: seq<Tx>)

  ghost predicate LogOk(blocks: map<nat, TxBlock>, mem: Mem, h: Hist)
  {
    IsLog(blocks, h.chain) && LogMeans(mem, Log(blocks, h.chain), h.paths, h.txs) && HistoryOk(h.txs)
  }

  /** Table and size are the replay of exactly the entries before the cursor. */
  ghost predicate UpTo(blocks: map<nat, TxBlock>, h: Hist, c: Cursor, table: seq<nat>, size: nat)
  {
    && CursorOk(blocks, h.chain, c) && HistoryOk(h.txs) && Pos(blocks, h.chain, c) <= |h.txs|
    && Agrees(table, size, h.txs[..Pos(blocks, h.chain, c)])
  }

  ghost function MarksAt(h: Hist, n: nat, p: nat): set<nat>
    requires p <= |h.paths|
  {
    FirstBlocks(h.chain, n) + LogBlocks(h.paths[..p])
  }

  /** The bitmap, if one is given, with the first `n` blocks of the chain marked
      and the log blocks of the first `p` entries. */
  ghost predicate MarkedUpTo(bitmap: BitmapMgr?, e0: seq<Word>, h: Hist, n: nat, p: nat, prev: nat)
    reads bitmap
  {
    bitmap != null ==>
      && p <= |h.paths| && Mappable(|e0|, MarksAt(h, |h.chain|, |h.paths|))
      && Marked(e0, bitmap.entries, MarksAt(h, n, p))
      && (prev != 0 ==> prev in FirstBlocks(h.chain, n))
  }

  /** Leaves the overflow state if there is a block to go to. */
  method HandleOverflow(blocks: map<nat, TxBlock>, c: Cursor, ghost chain: seq<nat>) returns (ok: bool, c': Cursor)
    requires IsLog(blocks, chain) && CursorOk(blocks, chain, c)
    ensures CursorOk(blocks, chain, c') && Pos(blocks, chain, c') == Pos(blocks, chain, c)
        && Reached(blocks, c') == Reached(blocks, c)
    ensures ok ==> c'.local < Cap(c'.block)
    ensures !ok ==> c' == c && c.local > 0 && Pos(blocks, chain, c) == |Log(blocks, chain)|
  {
    CapIsReached(blocks, chain, c);
    ok, c' := true, c;
    if c.local >= Cap(c.block) {
      var next := blocks[c.block].next;
      if next == 0 {
        StartNext(blocks, chain, |chain| - 1);
        assert chain[..|chain|] == chain;
        ok := false;
      } else {
        OverOk(blocks, chain, c);
        c' := Over(c, next);
      }
    }
  }

  class BlkTable {
    var table: seq<nat>
    var cursor: Cursor
    var fileSize: nat
    var version: nat

    constructor ()
      ensures Agrees(table, fileSize, []) && cursor == Cursor(0, 0) && version == 0 && |table| == BLOCKS_PER_GROW
    {
      table := seq(BLOCKS_PER_GROW, _ => 0);
      cursor, fileSize, version := Cursor(0, 0), 0, 0;
    }

    method GrowToFit(idx: nat)
      modifies this`table
      ensures |table| > idx && (|old(table)| > idx ==> table == old(table))
      ensures forall v: nat :: At(table, v) == At(old(table), v)
    {
      if |table| <= idx {
        table := table + seq(NextPow2(idx) - |table|, _ => 0);
      }
    }

    method ApplyInline(num: nat, beginVidx: nat, beginLidx: nat)
      modifies this`table, this`fileSize
      ensures var tx := InlineTx(num, beginVidx, beginLidx);
              Steps(old(table), table, tx) && fileSize == Grow(old(fileSize), TxEnd(tx))
    {
      if num == 0 { return; }
      ghost var was := table;
      var end := beginVidx + num;
      GrowToFit(end);
      ghost var cells := (v: nat) => if v < beginVidx then 0 else beginLidx + (v - beginVidx);
      var i := 0;
      while i < num
        invariant i <= num && |table| >= end && fileSize == old(fileSize)
        invariant CellsSet(was, table, cells, beginVidx, i)
      {
        NextCellSet(was, table, cells, beginVidx, i);
        table := table[beginVidx + i := beginLidx + i];
        i := i + 1;
      }
      var now := end * BLOCK_SIZE;
      if now > fileSize { fileSize := now; }
    }

    /** Applies one entry of a chain. */
    method ApplyEntry(mem: Mem, nd: Node, ghost e: LogEntry, ghost next: Option<Node>) returns (end: nat, leftover: nat)
      requires EntryAt(mem, nd, e, next)
      modifies this`table
      ensures EntrySteps(old(table), table, e) && end == e.beginVidx + e.numBlocks && leftover == e.leftover
    {
      ghost var was := table;
      var row := mem[nd.block];
      var begin, num := row[nd.at + 2].value, row[nd.at].numBlocks;
      end := begin + num;
      GrowToFit(end);
      ghost var cells := (v: nat) => Under(e, v, 0);
      var k := 0;
      while k < num
        invariant k <= num && |table| >= end
        invariant CellsSet(was, table, cells, begin, k)
      {
        ChunkIndex(k, num);
        assert row[nd.at + FIXED_WORDS + k / CHUNK] == Word(e.lidxs[k / CHUNK]);
        var lidx := row[nd.at + FIXED_WORDS + k / CHUNK].value + k % CHUNK;
        NextCellSet(was, table, cells, begin, k);
        table := table[begin + k := lidx];
        k := k + 1;
      }
      leftover := row[nd.at].leftover;
    }

    /** One turn of `ApplyIndirect`: applies the `k`-th entry and moves on. */
    method ApplyNext(mem: Mem, cur: Node, bitmap: BitmapMgr?, ghost was: seq<nat>, ghost e0: seq<Word>,
                     ghost path: seq<Node>, ghost es: seq<LogEntry>, ghost k: nat)
      returns (more: bool, cur': Node, end: nat, leftover: nat)
      requires ChainAt(mem, path, es) && k < |path| && path[k] == cur
      requires Through(was, table, es, k) && MarkedThrough(bitmap, e0, path, k)
      modifies this`table, bitmap
      ensures Through(was, table, es, k + 1) && MarkedThrough(bitmap, e0, path, k + 1)
      ensures more == (k + 1 < |path|) && (more ==> cur' == path[k + 1])
      ensures end * BLOCK_SIZE - leftover == EntryEnd(es[k])
    {
      ghost var before := table;
      assert EntryAt(mem, path[k], es[k], NextOf(path, k));
      MarkNode(bitmap, e0, path, k, cur.block);
      end, leftover := ApplyEntry(mem, cur, es[k], NextOf(path, k));
      ChainSteps(was, before, table, es, k);
      cur' := cur;
      more := mem[cur.block][cur.at].hasNext;
      if more {
        cur' := Node(mem[cur.block][cur.at + 1].value, 0);
      }
    }

    /** Applies the chain of log entries at `head`. */
    method ApplyIndirect(mem: Mem, head: Node, bitmap: BitmapMgr?, ghost path: seq<Node>, ghost es: seq<LogEntry>)
      requires ChainAt(mem, path, es) && path[0] == head && EntryEnd(es[|es| - 1]) >= 0
      requires bitmap != null ==> Mappable(|bitmap.entries|, PathBlocks(path))
      modifies this`table, this`fileSize, bitmap
      ensures TxOk(ChainTx(es))
      ensures Steps(old(table), table, ChainTx(es)) && fileSize == Grow(old(fileSize), TxEnd(ChainTx(es)))
      ensures bitmap != null ==> Marked(old(bitmap.entries), bitmap.entries, PathBlocks(path))
    {
      ghost var was, e0 := table, if bitmap != null then bitmap.entries else [];
      ChainOk(mem, path, es);
      var cur, more, end, leftover := head, true, 0, 0;
      ghost var k := 0;
      while more
        invariant k <= |path| && more == (k < |path|) && (more ==> cur == path[k]) && fileSize == old(fileSize)
        invariant Through(was, table, es, k) && MarkedThrough(bitmap, e0, path, k)
        invariant !more ==> end * BLOCK_SIZE - leftover == EntryEnd(es[|es| - 1])
        decreases |path| - k
      {
        more, cur, end, leftover := ApplyNext(mem, cur, bitmap, was, e0, path, es, k);
        k := k + 1;
      }
      assert es[..k] == es && path[..k] == path;
      var now := end * BLOCK_SIZE - leftover;
      if now > fileSize { fileSize := now; }
    }

    /** Applies the `p`-th entry. */
    method ApplyTx(mem: Mem, e: TxEntry, bitmap: BitmapMgr?, ghost e0: seq<Word>, ghost h: Hist, ghost n: nat,
                   ghost p: nat, ghost prev: nat)
      requires p < |h.paths| == |h.txs| && Means(mem, e, h.paths[p], h.txs[p])
      requires MarkedUpTo(bitmap, e0, h, n, p, prev)
      modifies this`table, this`fileSize, bitmap
      ensures TxOk(h.txs[p]) && Steps(old(table), table, h.txs[p]) && fileSize == Grow(old(fileSize), TxEnd(h.txs[p]))
      ensures MarkedUpTo(bitmap, e0, h, n, p + 1, prev)
    {
      ghost var e1 := if bitmap != null then bitmap.entries else [];
      LogBlocksHave(h.paths, p);
      assert h.paths[..|h.paths|] == h.paths;
      match e {
        case Inline(num, v, l) => ApplyInline(num, v, l);
        case Indirect(b, off) => ApplyIndirect(mem, Node(b, off / 4), bitmap, h.paths[p], h.txs[p].entries);
      }
      if bitmap != null { MarksStep(e0, e1, bitmap.entries, h, n, p); }
    }

    /** Applies the `p`-th entry, from block `b`, the `i`-th of the chain. */
    method ApplyMarked(mem: Mem, e: TxEntry, bitmap: BitmapMgr?, b: nat, prev: nat, ghost e0: seq<Word>,
                       ghost h: Hist, ghost i: nat, ghost n: nat, ghost p: nat)
      requires p < |h.paths| == |h.txs| && Means(mem, e, h.paths[p], h.txs[p]) && HistoryOk(h.txs)
          && Agrees(table, fileSize, h.txs[..p])
      requires i < |h.chain| && h.chain[i] == b && (b == 0 <==> i == 0) && (n == i || n == i + 1)
      requires MarkedUpTo(bitmap, e0, h, n, p, prev)
      modifies this`table, this`fileSize, bitmap
      ensures Agrees(table, fileSize, h.txs[..p + 1]) && MarkedUpTo(bitmap, e0, h, i + 1, p + 1, b)
    {
      MarkTxBlock(bitmap, b, prev, e0, h, i, n, p);
      ApplyTx(mem, e, bitmap, e0, h, i + 1, p, b);
      AgreesStep(old(table), old(fileSize), h.txs, p, table);
    }

    /** One turn of `UpdateUnsafe`: applies the entry at the cursor, if any, and
        advances. */
    method ApplyAt(blocks: map<nat, TxBlock>, mem: Mem, bitmap: BitmapMgr?, cur: Cursor, prev: nat,
                   ghost e0: seq<Word>, ghost h: Hist)
      returns (more: bool, cur': Cursor, prev': nat)
      requires LogOk(blocks, mem, h) && UpTo(blocks, h, cur, table, fileSize) && cur.local < Cap(cur.block)
      requires MarkedUpTo(bitmap, e0, h, Reached(blocks, cur), Pos(blocks, h.chain, cur), prev)
      modifies this`table, this`fileSize, bitmap
      ensures UpTo(blocks, h, cur', table, fileSize)
      ensures MarkedUpTo(bitmap, e0, h, Reached(blocks, cur'), Pos(blocks, h.chain, cur'), prev')
      ensures more ==> cur'.local < Cap(cur'.block) && Pos(blocks, h.chain, cur') == Pos(blocks, h.chain, cur) + 1
      ensures !more ==> Pos(blocks, h.chain, cur') == |h.txs|
    {
      ghost var p, i := Pos(blocks, h.chain, cur), blocks[cur.block].txSeq;
      SlotAtCursor(blocks, h.chain, cur);
      assert NodeOk(blocks, h.chain[i], i) && NodeOk(blocks, h.chain[0], 0);
      var slot := blocks[cur.block].slots[cur.local];
      if slot.None? { return false, cur, prev; }
      assert Means(mem, slot.value, h.paths[p], h.txs[p]);
      ApplyMarked(mem, slot.value, bitmap, cur.block, prev, e0, h, i, Reached(blocks, cur), p);
      prev' := cur.block;
      more, cur' := HandleOverflow(blocks, Cursor(cur.block, cur.local + 1), h.chain);
    }

    /** The loop of `UpdateUnsafe`. */
    method ApplyFrom(blocks: map<nat, TxBlock>, mem: Mem, bitmap: BitmapMgr?, from: Cursor, ghost e0: seq<Word>,
                     ghost h: Hist) returns (cur: Cursor)
      requires LogOk(blocks, mem, h) && UpTo(blocks, h, from, table, fileSize) && from.local < Cap(from.block)
      requires MarkedUpTo(bitmap, e0, h, Reached(blocks, from), Pos(blocks, h.chain, from), 0)
      modifies this`table, this`fileSize, bitmap
      ensures UpTo(blocks, h, cur, table, fileSize) && Pos(blocks, h.chain, cur) == |h.txs|
          && Agrees(table, fileSize, h.txs)
      ensures bitmap != null ==> Marked(e0, bitmap.entries, MarksAt(h, Reached(blocks, cur), |h.paths|))
    {
      cur := from;
      var prev, more := 0, true;
      while more
        invariant UpTo(blocks, h, cur, table, fileSize) && (more ==> cur.local < Cap(cur.block))
        invariant MarkedUpTo(bitmap, e0, h, Reached(blocks, cur), Pos(blocks, h.chain, cur), prev)
        invariant !more ==> Pos(blocks, h.chain, cur) == |h.txs|
        decreases more, |h.txs| - Pos(blocks, h.chain, cur)
      {
        more, cur, prev := ApplyAt(blocks, mem, bitmap, cur, prev, e0, h);
      }
      assert h.txs[..|h.txs|] == h.txs;
    }

    /** Applies all entries from the saved cursor on. With a bitmap, as at
        recovery, marks every block that the log uses. */
    method UpdateUnsafe(blocks: map<nat, TxBlock>, mem: Mem, bitmap: BitmapMgr?, ghost h: Hist) returns (size: nat)
      requires LogOk(blocks, mem, h) && UpTo(blocks, h, cursor, table, fileSize)
      requires bitmap != null ==> cursor == Cursor(0, 0) && Coverable(|bitmap.entries|, h)
      modifies this, bitmap
      ensures UpTo(blocks, h, cursor, table, fileSize) && Pos(blocks, h.chain, cursor) == |h.txs| && size == fileSize
      ensures version == old(version) + 2
           || (version == old(version) && cursor == old(cursor) && table == old(table) && fileSize == old(fileSize))
      ensures bitmap != null ==>
                Marked(old(bitmap.entries), bitmap.entries,
                       MarksAt(h, Reached(blocks, cursor), |h.paths|) + Values(table))
    {
      var ok, cur := HandleOverflow(blocks, cursor, h.chain);
      if !ok { return fileSize; }
      ghost var e0 := if bitmap != null then bitmap.entries else [];
      NothingMarked(bitmap, e0, blocks, h, cursor);
      version := version + 1;
      cur := ApplyFrom(blocks, mem, bitmap, cur, e0, h);
      MarkLive(bitmap, e0, h, Reached(blocks, cur));
      cursor := cur;
      version := version + 1;
      size := fileSize;
    }

    /** Marks all live data blocks. */
    method MarkLive(bitmap: BitmapMgr?, ghost e0: seq<Word>, ghost h: Hist, ghost n: nat)
      requires bitmap != null ==>
                 && Coverable(|e0|, h) && Marked(e0, bitmap.entries, MarksAt(h, n, |h.paths|))
                     && Agrees(table, fileSize, h.txs)
      modifies bitmap
      ensures bitmap != null ==> Marked(e0, bitmap.entries, MarksAt(h, n, |h.paths|) + Values(table))
    {
      if bitmap != null {
        var i := 0;
        while i < |table|
          invariant i <= |table| && Marked(e0, bitmap.entries, MarksAt(h, n, |h.paths|) + Values(table[..i]))
        {
          ghost var e1, m := bitmap.entries, MarksAt(h, n, |h.paths|) + Values(table[..i]);
          assert At(table, i) == Lookup(h.txs, i);
          bitmap.SetAllocated(table[i]);
          ValuesNext(table, i);
          MarkedUnion(e0, e1, bitmap.entries, m, {table[i]}, MarksAt(h, n, |h.paths|) + Values(table[..i + 1]));
          i := i + 1;
        }
        assert table[..i] == table;
      }
    }
  }

  /** The bitmap has bits for all blocks of the log. */
  ghost predicate Coverable(words: nat, h: Hist)
  {
    && HistoryOk(h.txs) && Mappable(words, MarksAt(h, |h.chain|, |h.paths|))
    && forall v: nat :: Lookup(h.txs, v) / CHUNK < words
  }

  lemma ValuesNext(table: seq<nat>, i: nat)
    requires i < |table|
    ensures Values(table[..i + 1]) == Values(table[..i]) + {table[i]}
  {
  }

  lemma NothingMarked(bitmap: BitmapMgr?, e0: seq<Word>, blocks: map<nat, TxBlock>, h: Hist, c: Cursor)
    requires IsLog(blocks, h.chain) && CursorOk(blocks, h.chain, c)
    requires bitmap != null ==> c == Cursor(0, 0) && e0 == bitmap.entries && Coverable(|e0|, h)
    requires Pos(blocks, h.chain, c) <= |h.paths|
    ensures MarkedUpTo(bitmap, e0, h, Reached(blocks, c), Pos(blocks, h.chain, c), 0)
  {
    assert NodeOk(blocks, h.chain[0], 0);
    if bitmap != null {
      assert MarksAt(h, Reached(blocks, c), Pos(blocks, h.chain, c)) == {};
    }
  }

  /** The table after the first `k` entries of a chain. */
  ghost predicate Through(was: seq<nat>, table: seq<nat>, es: seq<LogEntry>, k: nat)
  {
    && k <= |es| && (forall i | 0 <= i < |es| :: EntryOk(es[i]))
    && forall v: nat :: At(table, v) == UnderChain(es[..k], v, At(was, v))
  }

  /** The bitmap, if one is given, with the blocks of the first `k` nodes marked. */
  ghost predicate MarkedThrough(bitmap: BitmapMgr?, e0: seq<Word>, path: seq<Node>, k: nat)
    reads bitmap
  {
    bitmap != null ==>
      k <= |path| && Mappable(|e0|, PathBlocks(path)) && Marked(e0, bitmap.entries, PathBlocks(path[..k]))
  }

  method MarkNode(bitmap: BitmapMgr?, ghost e0: seq<Word>, ghost path: seq<Node>, ghost k: nat, block: nat)
    requires k < |path| && path[k].block == block && MarkedThrough(bitmap, e0, path, k)
    modifies bitmap
    ensures MarkedThrough(bitmap, e0, path, k + 1)
  {
    if bitmap != null {
      PathMark(path, k);
      bitmap.SetAllocated(block);
    }
  }

  /** The log-chain round trip: applying the entries that `Append` writes for an
      extent maps its blocks, and no others, to the chunks it was given, and
      extends the file to the extent's end. */
  lemma {:induction false} ChainRoundTrip(first: nat, v: nat, n: nat, lidxs: seq<nat>, leftover: nat,
                                          table: seq<nat>, table': seq<nat>, w: nat)
    requires 0 < first <= AVAIL_MAX && |lidxs| == ChunksFor(n) && TxOk(ChainTx(Pieces(first, v, n, lidxs, leftover)))
    requires Steps(table, table', ChainTx(Pieces(first, v, n, lidxs, leftover)))
    ensures Within(v, n, w) ==> (w - v) / CHUNK < |lidxs|
    ensures At(table', w) == if Within(v, n, w) then lidxs[(w - v) / CHUNK] + (w - v) % CHUNK else At(table, w)
    ensures TxEnd(ChainTx(Pieces(first, v, n, lidxs, leftover))) == (v + n) * BLOCK_SIZE - leftover
  {
    PiecesMeaning(first, v, n, lidxs, leftover, w, At(table, w));
  }

  lemma ChainOk(mem: Mem, path: seq<Node>, es: seq<LogEntry>)
    requires ChainAt(mem, path, es)
    ensures forall i | 0 <= i < |es| :: EntryOk(es[i])
  {
    forall i | 0 <= i < |es| ensures EntryOk(es[i]) { assert EntryAt(mem, path[i], es[i], NextOf(path, i)); }
  }

  lemma ChainSteps(was: seq<nat>, before: seq<nat>, after: seq<nat>, es: seq<LogEntry>, k: nat)
    requires k < |es| && Through(was, before, es, k) && EntrySteps(before, after, es[k])
    ensures Through(was, after, es, k + 1)
  {
    assert es[..k + 1][..k] == es[..k];
  }

  lemma PathMark(path: seq<Node>, k: nat)
    requires k < |path|
    ensures PathBlocks(path[..k + 1]) == PathBlocks(path[..k]) + {path[k].block}
    ensures path[k].block in PathBlocks(path)
  {
  }

  /** Marks the transaction block of index `i` unless it was marked last. */
  method MarkTxBlock(bitmap: BitmapMgr?, b: nat, prev: nat, ghost e0: seq<Word>, ghost h: Hist, ghost i: nat,
                     ghost n: nat, ghost p: nat)
    requires i < |h.chain| && h.chain[i] == b && (b == 0 <==> i == 0) && (n == i || n == i + 1)
    requires MarkedUpTo(bitmap, e0, h, n, p, prev)
    modifies bitmap
    ensures MarkedUpTo(bitmap, e0, h, i + 1, p, b)
  {
    if bitmap != null {
      ghost var e1, txs, txs' := bitmap.entries, FirstBlocks(h.chain, n), FirstBlocks(h.chain, i + 1);
      FirstBlocksNext(h.chain, i, n);
      if b != prev {
        bitmap.SetAllocated(b);
      }
      MarkTxStep(e0, e1, bitmap.entries, txs, txs', LogBlocks(h.paths[..p]), b, prev);
    }
  }

  lemma FirstBlocksNext(chain: seq<nat>, i: nat, n: nat)
    requires i < |chain| && (n == i || n == i + 1)
    ensures FirstBlocks(chain, i + 1) == FirstBlocks(chain, n) + (if i == 0 then {} else {chain[i]})
    ensures i == 0 ==> FirstBlocks(chain, n) == {}
    ensures FirstBlocks(chain, i + 1) <= FirstBlocks(chain, |chain|)
  {
  }

  lemma MarkTxStep(e0: seq<Word>, e1: seq<Word>, e2: seq<Word>, txs: set<nat>, txs': set<nat>, logs: set<nat>,
                   b: nat, prev: nat)
    requires Marked(e0, e1, txs + logs) && Marked(e1, e2, if b != prev then {b} else {})
    requires txs' == txs + (if b == 0 then {} else {b}) && (b == 0 ==> txs == {}) && (prev != 0 ==> prev in txs)
    ensures Marked(e0, e2, txs' + logs) && (b != 0 ==> b in txs')
  {
    MarkedUnion(e0, e1, e2, txs + logs, if b != prev then {b} else {}, txs' + logs);
  }

  lemma MarkedUnion(e0: seq<Word>, e1: seq<Word>, e2: seq<Word>, m1: set<nat>, m2: set<nat>, m: set<nat>)
    requires Marked(e0, e1, m1) && Marked(e1, e2, m2) && m == m1 + m2
    ensures Marked(e0, e2, m)
  {
  }

  lemma MarksStep(e0: seq<Word>, e1: seq<Word>, e2: seq<Word>, h: Hist, n: nat, p: nat)
    requires p < |h.paths| && Marked(e0, e1, MarksAt(h, n, p)) && Marked(e1, e2, PathBlocks(h.paths[p]))
    ensures Marked(e0, e2, MarksAt(h, n, p + 1))
  {
    assert h.paths[..p + 1][..p] == h.paths[..p];
    MarkedUnion(e0, e1, e2, MarksAt(h, n, p), PathBlocks(h.paths[p]), MarksAt(h, n, p + 1));
  }

  lemma {:induction false} LogBlocksHave(paths: seq<seq<Node>>, i: nat)
    requires i < |paths|
    ensures PathBlocks(paths[i]) <= LogBlocks(paths)
  {
    if i < |paths| - 1 { LogBlocksHave(paths[..|paths| - 1], i); }
  }
}
