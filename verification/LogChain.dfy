/** Log entries in persistent memory: a mapping too large for an inline entry is
    written as a chain of variable-length entries, each in the rest of a log
    block, and read back by following the chain. */
module LogChain {
  import opened Layout
  import opened Entry
  import opened Replay
  import opened Alloc

  const WORDS: nat := 1024        // 4-byte words in a block
  const FIXED_SIZE: nat := 12     // bytes of a log entry before `begin_lidxs`
  const FIXED_WORDS: nat := 3
  const OVERWRITE: nat := 1

  // A 4-byte word, either an entry's first word with its bit fields, or a number
  // (`next`, `begin_vidx`, an element of `begin_lidxs`).
  datatype Cell =
    | Header(op: nat, hasNext: bool, sameBlock: bool, leftover: nat, numBlocks: nat)
    | Word(value: nat)

  type Mem = map<nat, seq<Cell>>

  // Where an entry starts: block and word index.
  datatype Node = Node(block: nat, at: nat)

  /** How many elements of `begin_lidxs` fit an entry starting at word `at`. */
  function Avail(at: nat): nat
    requires at + FIXED_WORDS <= WORDS
  {
    WORDS - FIXED_WORDS - at
  }

  const AVAIL_MAX: nat := WORDS - FIXED_WORDS

  /* How a mapping is cut into entries. */

  /** The block counts of the entries, if the first one has room for `first`
      chunks and every later one starts a block. */
  function Counts(first: nat, n: nat): seq<nat>
    requires first > 0
    decreases n
  {
    if ChunksFor(n) <= first then [n] else [CHUNK * first] + Counts(AVAIL_MAX, n - CHUNK * first)
  }

  /** ... if the first one starts at word `at` of its block. */
  function CountsFrom(at: nat, n: nat): seq<nat>
    requires at + FIXED_WORDS < WORDS
  {
    Counts(Avail(at), n)
  }

  /** The entries themselves. */
  function Pieces(first: nat, v: nat, n: nat, lidxs: seq<nat>, leftover: nat): seq<LogEntry>
    requires first > 0 && |lidxs| == ChunksFor(n)
    decreases n
  {
    if ChunksFor(n) <= first then [LogEntry(v, n, lidxs, leftover)]
    else
      [LogEntry(v, CHUNK * first, lidxs[..first], 0)] +
      Pieces(AVAIL_MAX, v + CHUNK * first, n - CHUNK * first, lidxs[first..], leftover)
  }

  lemma {:induction false} PiecesCounts(first: nat, v: nat, n: nat, lidxs: seq<nat>, leftover: nat)
    requires first > 0 && |lidxs| == ChunksFor(n)
    ensures var es := Pieces(first, v, n, lidxs, leftover);
            |es| == |Counts(first, n)| && es != [] && forall i | 0 <= i < |es| ::
                EntryOk(es[i]) && es[i].numBlocks == Counts(first, n)[i]
    decreases n
  {
    if ChunksFor(n) > first {
      PiecesCounts(AVAIL_MAX, v + CHUNK * first, n - CHUNK * first, lidxs[first..], leftover);
    }
  }

  /** Every entry fits the 16-bit count and its block. */
  lemma {:induction false} CountsFit(first: nat, n: nat, i: nat)
    requires 0 < first <= AVAIL_MAX && i < |Counts(first, n)|
    ensures Counts(first, n)[i] < 0x1_0000
    ensures ChunksFor(Counts(first, n)[i]) <= if i == 0 then first else AVAIL_MAX
    decreases n
  {
    if ChunksFor(n) > first && i > 0 {
      CountsFit(AVAIL_MAX, n - CHUNK * first, i - 1);
    }
  }

  /** The first entry of a chain is applied before the others. */
  lemma {:induction false} UnderCons(e: LogEntry, es: seq<LogEntry>, v: nat, before: nat)
    requires EntryOk(e) && forall i | 0 <= i < |es| :: EntryOk(es[i])
    ensures UnderChain([e] + es, v, before) == UnderChain(es, v, Under(e, v, before))
  {
    if es == [] {
      assert [e] + es == [e];
      assert [e][..0] == [];
    } else {
      var init := es[..|es| - 1];
      UnderCons(e, init, v, before);
      assert ([e] + es)[..|es|] == [e] + init;
    }
  }

  lemma ChunkSplit(lidxs: seq<nat>, first: nat, k: nat)
    requires first <= |lidxs| && k / CHUNK < |lidxs|
    ensures k < CHUNK * first ==> k / CHUNK < first && ChunkBlock(lidxs[..first], k) == ChunkBlock(lidxs, k)
    ensures k >= CHUNK * first ==>
              (k - CHUNK * first) / CHUNK < |lidxs| - first
                  && ChunkBlock(lidxs[first..], k - CHUNK * first) == ChunkBlock(lidxs, k)
  {
    if k >= CHUNK * first {
      assert (k - CHUNK * first) / CHUNK == k / CHUNK - first;
    }
  }

  lemma {:induction false} PiecesEnd(first: nat, v: nat, n: nat, lidxs: seq<nat>, leftover: nat)
    requires first > 0 && |lidxs| == ChunksFor(n)
    ensures var es := Pieces(first, v, n, lidxs, leftover);
            es != [] && EntryEnd(es[|es| - 1]) == (v + n) * BLOCK_SIZE - leftover
    decreases n
  {
    if ChunksFor(n) > first {
      PiecesEnd(AVAIL_MAX, v + CHUNK * first, n - CHUNK * first, lidxs[first..], leftover);
    }
  }

  lemma {:induction false} OnePiece(v: nat, n: nat, lidxs: seq<nat>, leftover: nat, w: nat, before: nat)
    requires |lidxs| == ChunksFor(n)
    ensures Within(v, n, w) ==> (w - v) / CHUNK < |lidxs|
    ensures Under(LogEntry(v, n, lidxs, leftover), w, before)
        == if Within(v, n, w) then ChunkBlock(lidxs, w - v) else before
    ensures UnderChain([LogEntry(v, n, lidxs, leftover)], w, before)
         == Under(LogEntry(v, n, lidxs, leftover), w, before)
  {
    if Within(v, n, w) { ChunkIndex(w - v, n); }
    var es := [LogEntry(v, n, lidxs, leftover)];
    assert es[..0] == [];
    assert UnderChain(es, w, before) == Under(es[0], w, UnderChain([], w, before));
  }

  /** What the first entry covers and what the others do. */
  lemma {:induction false} TwoPieces(first: nat, v: nat, n: nat, lidxs: seq<nat>, w: nat)
    requires first <= |lidxs| == ChunksFor(n) && CHUNK * first <= n
    ensures Within(v, n, w) <==> Within(v, CHUNK * first, w) || Within(v + CHUNK * first, n - CHUNK * first, w)
    ensures Within(v, CHUNK * first, w) ==>
              (w - v) / CHUNK < first && ChunkBlock(lidxs[..first], w - v) == ChunkBlock(lidxs, w - v)
    ensures var v' := v + CHUNK * first;
            Within(v', n - CHUNK * first, w) ==>
              (w - v') / CHUNK < |lidxs| - first && !Within(v, CHUNK * first, w)
                  && ChunkBlock(lidxs[first..], w - v') == ChunkBlock(lidxs, w - v)
  {
    if Within(v, n, w) {
      ChunkIndex(w - v, n);
      ChunkSplit(lidxs, first, w - v);
    }
  }

  lemma {:induction false} PiecesMap(es: seq<LogEntry>, first: nat, v: nat, n: nat, lidxs: seq<nat>, leftover: nat,
                                     w: nat, before: nat)
    requires first > 0 && |lidxs| == ChunksFor(n) && es == Pieces(first, v, n, lidxs, leftover)
    requires forall i | 0 <= i < |es| :: EntryOk(es[i])
    ensures Within(v, n, w) ==> (w - v) / CHUNK < |lidxs|
    ensures UnderChain(es, w, before) == if Within(v, n, w) then ChunkBlock(lidxs, w - v) else before
    decreases n
  {
    if ChunksFor(n) <= first {
      OnePiece(v, n, lidxs, leftover, w, before);
    } else {
      var len, head, rest := CHUNK * first, lidxs[..first], lidxs[first..];
      var e, tail := LogEntry(v, len, head, 0), Pieces(AVAIL_MAX, v + len, n - len, rest, leftover);
      assert es == [e] + tail && forall i | 0 <= i < |tail| :: tail[i] == es[i + 1];
      OnePiece(v, len, head, 0, w, before);
      TwoPieces(first, v, n, lidxs, w);
      PiecesMap(tail, AVAIL_MAX, v + len, n - len, rest, leftover, w, Under(e, w, before));
      UnderCons(e, tail, w, before);
    }
  }

  /** The meaning of the entries: block `v + k` goes to `lidxs[k / 64] + k % 64`
      for exactly the `k` below `n`, and the file ends `leftover` bytes before the
      end of the last block. */
  lemma {:induction false} PiecesMeaning(first: nat, v: nat, n: nat, lidxs: seq<nat>, leftover: nat, w: nat,
                                         before: nat)
    requires first > 0 && |lidxs| == ChunksFor(n)
    ensures TxOk(ChainTx(Pieces(first, v, n, lidxs, leftover)))
    ensures Within(v, n, w) ==> (w - v) / CHUNK < |lidxs|
    ensures UnderTx(ChainTx(Pieces(first, v, n, lidxs, leftover)), w, before)
         == if Within(v, n, w) then ChunkBlock(lidxs, w - v) else before
    ensures TxEnd(ChainTx(Pieces(first, v, n, lidxs, leftover))) == (v + n) * BLOCK_SIZE - leftover
  {
    PiecesEnd(first, v, n, lidxs, leftover);
    PiecesCounts(first, v, n, lidxs, leftover);
    PiecesMap(Pieces(first, v, n, lidxs, leftover), first, v, n, lidxs, leftover, w, before);
  }

  /* Entries in memory. */

  ghost predicate MemOk(mem: Mem) { forall b | b in mem :: |mem[b]| == WORDS }

  /** The part of an entry that the allocation writes: its count and its link. */
  ghost predicate SkelAt(mem: Mem, nd: Node, num: nat, next: Option<Node>)
  {
    && nd.block in mem && |mem[nd.block]| == WORDS && nd.at + FIXED_WORDS + ChunksFor(num) <= WORDS
    && var c := mem[nd.block][nd.at];
       && c.Header? && c.numBlocks == num && c.hasNext == next.Some?
       && (next.Some? ==> !c.sameBlock && mem[nd.block][nd.at + 1] == Word(next.value.block) && next.value.at == 0)
  }

  /** A complete entry. */
  ghost predicate EntryAt(mem: Mem, nd: Node, e: LogEntry, next: Option<Node>)
  {
    && EntryOk(e) && SkelAt(mem, nd, e.numBlocks, next)
    && mem[nd.block][nd.at].op == OVERWRITE && mem[nd.block][nd.at].leftover == e.leftover
    && mem[nd.block][nd.at + 2] == Word(e.beginVidx)
    && forall j | 0 <= j < |e.lidxs| :: mem[nd.block][nd.at + FIXED_WORDS + j] == Word(e.lidxs[j])
  }

  function NextOf(nodes: seq<Node>, i: nat): Option<Node> { if i + 1 < |nodes| then Some(nodes[i + 1]) else None }

  /** The chain `nodes` in memory spells the entries `es`. */
  ghost predicate ChainAt(mem: Mem, nodes: seq<Node>, es: seq<LogEntry>)
  {
    |nodes| == |es| > 0 && forall i {:trigger NextOf(nodes, i)} | 0 <= i < |nodes| ::
        EntryAt(mem, nodes[i], es[i], NextOf(nodes, i))
  }

  ghost predicate Apart(nodes: seq<Node>)
  {
    forall i, k | 0 <= i < k < |nodes| :: nodes[i].block != nodes[k].block
  }

  /** Sets the count and the link flag in an entry's first word, whatever it held. */
  function SetCount(c: Cell, hasNext: bool, num: nat): (c': Cell)
    ensures c'.Header?
  {
    if c.Header? then c.(hasNext := hasNext, numBlocks := num) else Header(0, hasNext, false, 0, num)
  }

  /** ... and the flag that the next entry is in another block. */
  function SetLink(c: Cell, num: nat): Cell
  {
    if c.Header? then c.(hasNext := true, sameBlock := false, numBlocks := num) else Header(0, true, false, 0, num)
  }

  function SetBody(c: Cell, leftover: nat): Cell
  {
    if c.Header? then c.(op := OVERWRITE, leftover := leftover) else Header(OVERWRITE, false, false, leftover, 0)
  }

  function Store(mem: Mem, b: nat, at: nat, c: Cell): Mem
    requires b in mem && at < |mem[b]|
  {
    mem[b := mem[b][at := c]]
  }

  /** Blocks in use are left alone, except for what follows word `at` of block `b`. */
  ghost predicate Untouched(lists: seq<seq<nat>>, entries: seq<Word>, mem: Mem, mem': Mem, b: nat, at: nat)
    requires |lists| == CHUNK
  {
    forall x | x in mem && FreeCount(lists, entries, x) == 0 ::
      && x in mem' && |mem'[x]| == |mem[x]|
      && forall k | 0 <= k < |mem[x]| && (x == b ==> k < at) :: mem'[x][k] == mem[x][k]
  }

  /** Every free block is free once, and exists. */
  ghost predicate StoreOk(lists: seq<seq<nat>>, entries: seq<Word>, mem: Mem)
    requires |lists| == CHUNK
  {
    && MemOk(mem)
    && (forall x: nat :: FreeCount(lists, entries, x) <= 1)
    && (forall x: nat :: FreeCount(lists, entries, x) > 0 ==> x in mem && x != 0)
  }

  /** The current block, if any, is in use, and its offset is a multiple of 4. */
  ghost predicate PlaceOk(lists: seq<seq<nat>>, entries: seq<Word>, mem: Mem, block: nat, offset: nat)
    requires |lists| == CHUNK
  {
    block != 0 ==> block in mem && offset <= BLOCK_SIZE && offset % 4 == 0 && FreeCount(lists, entries, block) == 0
  }

  /** There is room for one more entry. */
  predicate Roomy(block: nat, offset: nat)
  {
    block != 0 && offset % 4 == 0 && offset + FIXED_SIZE + 4 <= BLOCK_SIZE
  }

  lemma OffsetInWords(offset: nat)
    requires offset % 4 == 0 && offset + FIXED_SIZE + 4 <= BLOCK_SIZE
    ensures offset / 4 + FIXED_WORDS < WORDS
    ensures (BLOCK_SIZE - (offset + FIXED_SIZE)) / 4 == Avail(offset / 4)
    ensures offset + FIXED_SIZE + 4 * Avail(offset / 4) == BLOCK_SIZE
  {
  }

  class LogEntryAllocator {
    const blocks: BlockAllocator
    var mem: Mem
    var currBlock: nat
    var currOffset: nat   // offset of the next available byte

    ghost predicate Valid()
      reads this, blocks, blocks.bitmap
    {
      && blocks.Valid()
      && StoreOk(blocks.lists, blocks.bitmap.entries, mem)
      && PlaceOk(blocks.lists, blocks.bitmap.entries, mem, currBlock, currOffset)
    }

    constructor (blocks: BlockAllocator, mem: Mem)
      requires blocks.Valid() && MemOk(mem)
      requires forall x: nat :: FreeCount(blocks.lists, blocks.bitmap.entries, x) <= 1
      requires forall x: nat :: FreeCount(blocks.lists, blocks.bitmap.entries, x) > 0 ==> x in mem && x != 0
      ensures Valid() && this.blocks == blocks && this.mem == mem && currBlock == 0
    {
      this.blocks := blocks;
      this.mem := mem;
      currBlock, currOffset := 0, 0;
    }

    /** Makes the next transaction start a new log block. */
    method Reset()
      requires Valid()
      modifies this`currBlock
      ensures Valid() && currBlock == 0
    {
      currBlock := 0;
    }

    /** Continues in a newly allocated block. */
    method NewBlock() returns (ok: bool)
      requires Valid()
      modifies this`currBlock, this`currOffset, blocks, blocks.bitmap
      ensures Valid()
      ensures NoneFreed(old(blocks.lists), old(blocks.bitmap.entries), blocks.lists, blocks.bitmap.entries)
      ensures !ok ==> currBlock == old(currBlock) && currOffset == old(currOffset)
      ensures !ok ==> Exhausted(blocks.recent, blocks.bitmap.entries)
      ensures ok ==> Roomy(currBlock, currOffset) && currOffset == 0
                     && FreeCount(old(blocks.lists), old(blocks.bitmap.entries), currBlock) == 1
    {
      ghost var l0, e0 := blocks.lists, blocks.bitmap.entries;
      var r := blocks.Alloc(1);
      NeverTwice(l0, e0, blocks.lists, blocks.bitmap.entries, r, 1);
      ok := r.Some?;
      if ok {
        assert FreeCount(l0, e0, r.value) == 1;
        currBlock, currOffset := r.value, 0;
      }
    }

    /** Finds the place of the first entry: the rest of the current block, if
        there is room for one element, or else a new block. */
    method FirstPlace(ghost n: nat) returns (ok: bool)
      requires Valid()
      modifies this`currBlock, this`currOffset, blocks, blocks.bitmap
      ensures Valid() && (!ok ==> Exhausted(blocks.recent, blocks.bitmap.entries))
      ensures NoneFreed(old(blocks.lists), old(blocks.bitmap.entries), blocks.lists, blocks.bitmap.entries)
      ensures !ok ==> currBlock == old(currBlock) && currOffset == old(currOffset)
      ensures ok ==>
                && Roomy(currBlock, currOffset) && currOffset / 4 + FIXED_WORDS < WORDS
                && var head := Node(currBlock, currOffset / 4);
                   && Progress(Was(old(blocks.lists), old(blocks.bitmap.entries), mem, old(currBlock),
                                   StartOf(old(currBlock), old(currOffset))),
                               blocks.lists, blocks.bitmap.entries, mem, [head], [], CountsFrom(head.at, n), n, head)
                   && Begins(old(blocks.lists), old(blocks.bitmap.entries), old(currBlock), old(currOffset), head)
    {
      ok := true;
      if !HasRoom(currBlock, currOffset) {
        ok := NewBlock();
      }
      if ok {
        OffsetInWords(currOffset);
      }
    }

    /** Completes the layout with an entry of `num` blocks in the current place. */
    method LastEntry(num: nat)
      requires Valid() && Roomy(currBlock, currOffset) && ChunksFor(num) <= Avail(currOffset / 4)
      modifies this`mem, this`currOffset
      ensures Valid() && StartOf(currBlock, currOffset) == old(currOffset) / 4 + FIXED_WORDS + ChunksFor(num)
      ensures var nd := Node(currBlock, old(currOffset) / 4);
              nd.block in old(mem) && nd.at < |old(mem)[nd.block]|
              && mem == Store(old(mem), nd.block, nd.at, SetCount(old(mem)[nd.block][nd.at], false, num))
    {
      var at := currOffset / 4;
      OffsetInWords(currOffset);
      mem := Store(mem, currBlock, at, SetCount(mem[currBlock][at], false, num));
      currOffset := currOffset + FIXED_SIZE + ChunksFor(num) * 4;
    }

    /** Lays out an entry that takes the rest of the current block, linked to a
        new block. */
    method FullEntry() returns (ok: bool, num: nat)
      requires Valid() && Roomy(currBlock, currOffset)
      modifies this, blocks, blocks.bitmap
      ensures Valid() && num == CHUNK * Avail(old(currOffset) / 4)
      ensures NoneFreed(old(blocks.lists), old(blocks.bitmap.entries), blocks.lists, blocks.bitmap.entries)
      ensures !ok ==> mem == old(mem) && Exhausted(blocks.recent, blocks.bitmap.entries)
      ensures !ok ==> currBlock == old(currBlock) && currOffset >= old(currOffset)
      ensures ok ==>
                && Roomy(currBlock, currOffset) && currOffset == 0
                && FreeCount(old(blocks.lists), old(blocks.bitmap.entries), currBlock) == 1
                && var nd := Node(old(currBlock), old(currOffset) / 4);
                   nd.block in old(mem) && nd.at + 1 < |old(mem)[nd.block]| && mem == Laid(old(mem), nd, num, currBlock)
    {
      OffsetInWords(currOffset);
      var nd := Node(currBlock, currOffset / 4);
      currOffset := currOffset + FIXED_SIZE;
      var avail := (BLOCK_SIZE - currOffset) / 4;
      num := CHUNK * avail;
      currOffset := currOffset + avail * 4;
      // The entry has used up its block: the next one cannot be in the same block.
      assert BLOCK_SIZE - currOffset < FIXED_SIZE + 4;
      ok := NewBlock();
      if ok {
        mem := Laid(mem, nd, num, currBlock);
      }
    }

    /** ... as the next entry of a chain under construction. */
    method NextEntry(ghost was: Was, ghost nodes: seq<Node>, ghost done: seq<nat>, ghost todo: seq<nat>, rest: nat)
      returns (ok: bool, rest': nat, ghost nodes': seq<Node>, ghost done': seq<nat>, ghost todo': seq<nat>)
      requires Valid() && Roomy(currBlock, currOffset) && ChunksFor(rest) > Avail(currOffset / 4)
      requires |was.lists| == CHUNK && FreeCount(was.lists, was.entries, was.block) == 0
      requires Progress(was, blocks.lists, blocks.bitmap.entries, mem, nodes, done, todo, rest,
                        Node(currBlock, currOffset / 4))
      modifies this, blocks, blocks.bitmap
      ensures Valid() && rest' < rest && nodes' != [] && nodes'[0] == nodes[0] && done' + todo' == done + todo
      ensures Untouched(was.lists, was.entries, was.mem, mem, was.block, was.at)
      ensures !ok ==> Exhausted(blocks.recent, blocks.bitmap.entries)
      ensures !ok ==> Advances(was, blocks.lists, blocks.bitmap.entries, currBlock, StartOf(currBlock, currOffset))
      ensures ok ==>
                && Roomy(currBlock, currOffset)
                && Progress(was, blocks.lists, blocks.bitmap.entries, mem, nodes', done', todo', rest',
                    Node(currBlock, currOffset / 4))
    {
      ghost var nd, mem1, l1, e1 := Node(currBlock, currOffset / 4), mem, blocks.lists, blocks.bitmap.entries;
      OffsetInWords(currOffset);
      var num;
      ok, num := FullEntry();
      ProgressRest(was, l1, e1, mem1, nodes, done, todo, rest, nd, num);
      if !ok {
        ProgressAdvances(was, l1, e1, mem1, nodes, done, todo, rest, nd, blocks.lists, blocks.bitmap.entries,
                         StartOf(currBlock, currOffset));
      }
      rest', nodes', done', todo' := rest - num, nodes + [Node(currBlock, 0)], done + [num], todo[1..];
      if ok {
        ProgressStep(was, l1, e1, mem1, nodes, done, todo, rest, nd, blocks.lists, blocks.bitmap.entries, currBlock,
                     num);
        assert Node(currBlock, currOffset / 4) == Node(currBlock, 0);
      }
    }

    /** Lays out a chain with room for a mapping of `numBlocks` blocks: it starts
        in the rest of the current block, if there is room for one element, and
        goes on in new blocks. Counts and links are written, the rest is not. */
    method AllocChain(numBlocks: nat) returns (ok: bool, head: Node, ghost nodes: seq<Node>)
      requires Valid()
      modifies this, blocks, blocks.bitmap
      ensures Valid() && (!ok ==> Exhausted(blocks.recent, blocks.bitmap.entries))
      ensures Untouched(old(blocks.lists), old(blocks.bitmap.entries), old(mem), mem, old(currBlock),
          StartOf(old(currBlock), old(currOffset)))
      ensures Advances(Was(old(blocks.lists), old(blocks.bitmap.entries), old(mem), old(currBlock),
                           StartOf(old(currBlock), old(currOffset))),
                       blocks.lists, blocks.bitmap.entries, currBlock, StartOf(currBlock, currOffset))
      ensures ok ==>
                && nodes != [] && head == nodes[0] && Apart(nodes) && head.at + FIXED_WORDS < WORDS
                && Begins(old(blocks.lists), old(blocks.bitmap.entries), old(currBlock), old(currOffset), head)
                && SkelChain(mem, nodes, CountsFrom(head.at, numBlocks))
                && AllMine(old(blocks.lists), old(blocks.bitmap.entries), nodes, old(currBlock),
                    StartOf(old(currBlock), old(currOffset)))
                && Settled(blocks.lists, blocks.bitmap.entries, nodes, CountsFrom(head.at, numBlocks), currBlock,
                    StartOf(currBlock, currOffset))
    {
      ghost var was := Was(blocks.lists, blocks.bitmap.entries, mem, currBlock, StartOf(currBlock, currOffset));
      head, nodes := Node(0, 0), [];
      ok := FirstPlace(numBlocks);
      if !ok { return; }
      head := Node(currBlock, currOffset / 4);
      ok, nodes := LayChain(was, numBlocks, head);
    }

    /** The loop of `AllocChain`. */
    method LayChain(ghost was: Was, numBlocks: nat, ghost head: Node) returns (ok: bool, ghost nodes: seq<Node>)
      requires Valid() && Roomy(currBlock, currOffset) && head == Node(currBlock, currOffset / 4)
          && head.at + FIXED_WORDS < WORDS
      requires Progress(was, blocks.lists, blocks.bitmap.entries, mem, [head], [], CountsFrom(head.at, numBlocks),
          numBlocks, head)
      requires FreeCount(was.lists, was.entries, was.block) == 0
      modifies this, blocks, blocks.bitmap
      ensures Valid() && Untouched(was.lists, was.entries, was.mem, mem, was.block, was.at)
      ensures Advances(was, blocks.lists, blocks.bitmap.entries, currBlock, StartOf(currBlock, currOffset))
      ensures !ok ==> Exhausted(blocks.recent, blocks.bitmap.entries)
      ensures ok ==>
                && nodes != [] && head == nodes[0] && Apart(nodes)
                && SkelChain(mem, nodes, CountsFrom(head.at, numBlocks))
                && AllMine(was.lists, was.entries, nodes, was.block, was.at)
                && Settled(blocks.lists, blocks.bitmap.entries, nodes, CountsFrom(head.at, numBlocks), currBlock,
                    StartOf(currBlock, currOffset))
    {
      nodes := [head];
      var rest: nat := numBlocks;
      ghost var done: seq<nat>, todo := [], CountsFrom(head.at, numBlocks);
      ghost var counts := todo;
      while ChunksFor(rest) > (BLOCK_SIZE - (currOffset + FIXED_SIZE)) / 4
        invariant Valid() && Roomy(currBlock, currOffset)
        invariant nodes != [] && nodes[0] == head && counts == done + todo
        invariant Progress(was, blocks.lists, blocks.bitmap.entries, mem, nodes, done, todo, rest,
                           Node(currBlock, currOffset / 4))
        decreases rest
      {
        OffsetInWords(currOffset);
        ok, rest, nodes, done, todo := NextEntry(was, nodes, done, todo, rest);
        if !ok { return; }
      }
      OffsetInWords(currOffset);
      ProgressAdvances(was, blocks.lists, blocks.bitmap.entries, mem, nodes, done, todo, rest,
                       Node(currBlock, currOffset / 4), blocks.lists, blocks.bitmap.entries,
                       currOffset / 4 + FIXED_WORDS + ChunksFor(rest));
      ProgressEnd(was, blocks.lists, blocks.bitmap.entries, mem, nodes, done, todo, rest,
                  Node(currBlock, currOffset / 4));
      LastEntry(rest);
      ok := true;
    }

    /** Writes everything but count and link of one entry: operation, first
        virtual block, leftover, and as many chunk starts as the entry has. */
    method FillEntry(nd: Node, v: nat, lidxs: seq<nat>, from: nat, leftover: nat)
      requires Valid() && nd.block in mem && nd.at + FIXED_WORDS <= WORDS
      requires var c := mem[nd.block][nd.at];
               c.Header? && from + ChunksFor(c.numBlocks) <= |lidxs|
                   && nd.at + FIXED_WORDS + ChunksFor(c.numBlocks) <= WORDS
      modifies this`mem
      ensures Valid()
      ensures var n := old(mem)[nd.block][nd.at].numBlocks;
              FilledBy(old(mem), mem, nd, LogEntry(v, n, lidxs[from..from + ChunksFor(n)], leftover))
    {
      var c := mem[nd.block][nd.at];
      var row := mem[nd.block][nd.at := SetBody(c, leftover)][nd.at + 2 := Word(v)];
      ghost var row0, piece := row, lidxs[from..from + ChunksFor(c.numBlocks)];
      var j := 0;
      while j < ChunksFor(c.numBlocks)
        invariant j <= ChunksFor(c.numBlocks) && |row| == WORDS
        invariant forall i | 0 <= i < j :: row[nd.at + FIXED_WORDS + i] == Word(piece[i])
        invariant forall i | 0 <= i < WORDS && !(nd.at + FIXED_WORDS <= i < nd.at + FIXED_WORDS + j) ::
                    row[i] == row0[i]
      {
        row := row[nd.at + FIXED_WORDS + j := Word(lidxs[from + j])];
        j := j + 1;
      }
      mem := mem[nd.block := row];
    }

    /** One turn of `Append`: fills the entry at the cursor and moves on. */
    method FillNext(ghost was: Was, ghost nodes: seq<Node>, ghost es: seq<LogEntry>, ghost k: nat, ghost rest: nat,
                    cur: Node, v: nat, lidxs: seq<nat>, i: nat, leftover: nat)
      returns (more: bool, cur': Node, v': nat, i': nat, ghost rest': nat)
      requires Valid() && Filling(was, mem, nodes, es, k) && k < |nodes| && cur == nodes[k]
          && cur.at + FIXED_WORDS < WORDS
      requires Tail(es, k, Avail(cur.at), v, rest, lidxs, i, leftover)
      modifies this`mem
      ensures Valid() && Filling(was, mem, nodes, es, k + 1) && more == (k + 1 < |nodes|)
      ensures more ==>
                cur' == nodes[k + 1] && cur'.at == 0 && Tail(es, k + 1, AVAIL_MAX, v', rest', lidxs, i', leftover)
    {
      ghost var before := mem;
      assert SkelAt(mem, nodes[k], es[k].numBlocks, NextOf(nodes, k));
      var c := mem[cur.block][cur.at];
      more := c.hasNext;
      var j := ChunksFor(c.numBlocks);
      FillingNow(es, k, Avail(cur.at), v, rest, lidxs, i, leftover, j);
      FillEntry(cur, v, lidxs, i, if more then 0 else leftover);
      FillingStep(was, before, mem, nodes, es, k);
      cur', v', i', rest' := cur, v, i, rest;
      if more {
        cur', v', i', rest' := Node(mem[cur.block][cur.at + 1].value, 0), v + CHUNK * j, i + j, rest - CHUNK * j;
      }
    }

    /** Writes the log entries of one transaction and returns the first one. */
    method Append(leftover: nat, numBlocks: nat, beginVidx: nat, lidxs: seq<nat>)
      returns (ok: bool, head: Node, ghost nodes: seq<Node>)
      requires Valid() && |lidxs| == ChunksFor(numBlocks)
      modifies this, blocks, blocks.bitmap
      ensures Valid() && (!ok ==> Exhausted(blocks.recent, blocks.bitmap.entries))
      ensures Untouched(old(blocks.lists), old(blocks.bitmap.entries), old(mem), mem, old(currBlock),
          StartOf(old(currBlock), old(currOffset)))
      ensures Advances(Was(old(blocks.lists), old(blocks.bitmap.entries), old(mem), old(currBlock),
                           StartOf(old(currBlock), old(currOffset))),
                       blocks.lists, blocks.bitmap.entries, currBlock, StartOf(currBlock, currOffset))
      ensures ok ==>
                && nodes != [] && head == nodes[0] && head.at + FIXED_WORDS < WORDS && Apart(nodes)
                && Begins(old(blocks.lists), old(blocks.bitmap.entries), old(currBlock), old(currOffset), head)
                && AllMine(old(blocks.lists), old(blocks.bitmap.entries), nodes, old(currBlock),
                    StartOf(old(currBlock), old(currOffset)))
                && ChainAt(mem, nodes, Pieces(Avail(head.at), beginVidx, numBlocks, lidxs, leftover))
                && Settled(blocks.lists, blocks.bitmap.entries, nodes, CountsFrom(head.at, numBlocks), currBlock,
                    StartOf(currBlock, currOffset))
    {
      ghost var was := Was(blocks.lists, blocks.bitmap.entries, mem, currBlock, StartOf(currBlock, currOffset));
      ok, head, nodes := AllocChain(numBlocks);
      if !ok { return; }
      ghost var es, k, rest := Pieces(Avail(head.at), beginVidx, numBlocks, lidxs, leftover), 0, numBlocks;
      PiecesCounts(Avail(head.at), beginVidx, numBlocks, lidxs, leftover);
      var cur, v, i, more := head, beginVidx, 0, true;
      while more
        invariant Valid() && Filling(was, mem, nodes, es, k) && more == (k < |nodes|)
        invariant more ==>
            cur == nodes[k] && cur.at + FIXED_WORDS < WORDS && Tail(es, k, Avail(cur.at), v, rest, lidxs, i, leftover)
        modifies this`mem
        decreases |nodes| - k
      {
        more, cur, v, i, rest := FillNext(was, nodes, es, k, rest, cur, v, lidxs, i, leftover);
        k := k + 1;
      }
    }

    /** Gives back a chain that was not committed, and the place in the current
        block. The first block is kept if other entries precede the chain in it. */
    method Discard(head: Node, ghost nodes: seq<Node>, ghost es: seq<LogEntry>)
      requires Valid() && ChainAt(mem, nodes, es) && nodes[0] == head && Apart(nodes)
      requires InUse(blocks.lists, blocks.bitmap.entries, nodes) && forall i | 0 <= i < |nodes| :: nodes[i].block != 0
      modifies this`currBlock, blocks
      ensures Valid() && currBlock == 0 && GaveBack(old(blocks.lists), blocks.lists, nodes)
    {
      ghost var l0 := blocks.lists;
      GiveBackChain(head, nodes, es);
      forall i | 0 <= i < |nodes| ensures nodes[i].block in mem {
        assert EntryAt(mem, nodes[i], es[i], NextOf(nodes, i));
      }
      GaveBackOk(l0, blocks.lists, blocks.bitmap.entries, mem, nodes);
      currBlock := 0;
    }

    /** The walk along the chain. */
    method GiveBackChain(head: Node, ghost nodes: seq<Node>, ghost es: seq<LogEntry>)
      requires blocks.Valid() && ChainAt(mem, nodes, es) && nodes[0] == head
      requires forall i | 0 <= i < |nodes| :: nodes[i].block != 0
      modifies blocks
      ensures blocks.Valid() && GaveBack(old(blocks.lists), blocks.lists, nodes)
    {
      ghost var l0 := blocks.lists;
      assert EntryAt(mem, nodes[0], es[0], NextOf(nodes, 0));
      if head.at == 0 {
        blocks.FreeRun(head.block, 1);
      }
      var cur := head;
      ghost var k := 0;
      GaveBackFirst(nodes);
      while mem[cur.block][cur.at].hasNext
        invariant k < |nodes| && cur == nodes[k] && EntryAt(mem, cur, es[k], NextOf(nodes, k))
        invariant blocks.Valid() && GaveBack(l0, blocks.lists, nodes[..k + 1])
        decreases |nodes| - k
      {
        cur := Node(mem[cur.block][cur.at + 1].value, 0);
        k := k + 1;
        assert EntryAt(mem, nodes[k], es[k], NextOf(nodes, k));
        GaveBackNext(nodes, k);
        blocks.FreeRun(cur.block, 1);
      }
      assert nodes[..k + 1] == nodes;
    }

    /** Walks to the last entry of a chain and changes its leftover. */
    method UpdateLeftover(head: Node, leftover: nat, ghost nodes: seq<Node>, ghost es: seq<LogEntry>)
      requires Valid() && ChainAt(mem, nodes, es) && nodes[0] == head && Apart(nodes)
      modifies this`mem
      ensures Valid() && ChainAt(mem, nodes, es[|es| - 1 := es[|es| - 1].(leftover := leftover)])
    {
      var cur := head;
      ghost var k := 0;
      assert EntryAt(mem, nodes[0], es[0], NextOf(nodes, 0));
      while mem[cur.block][cur.at].hasNext
        invariant k < |nodes| && cur == nodes[k] && EntryAt(mem, cur, es[k], NextOf(nodes, k))
        invariant mem == old(mem)
        decreases |nodes| - k
      {
        cur := Node(mem[cur.block][cur.at + 1].value, 0);
        k := k + 1;
        assert EntryAt(mem, nodes[k], es[k], NextOf(nodes, k));
      }
      LeftoverStored(mem, nodes, es, leftover);
      mem := Store(mem, cur.block, cur.at, mem[cur.block][cur.at].(leftover := leftover));
    }
  }

  /** Whether giving back the chain frees block `x`: every block of it but the
      first, and that too if the chain starts it. */
  ghost function FreedBy(nodes: seq<Node>, x: nat): nat
  {
    if nodes == [] then 0
    else
      var nd := nodes[|nodes| - 1];
      FreedBy(nodes[..|nodes| - 1], x) + if nd.block == x && (|nodes| > 1 || nd.at == 0) then 1 else 0
  }

  ghost predicate GaveBack(l0: seq<seq<nat>>, l: seq<seq<nat>>, nodes: seq<Node>)
  {
    |l0| == |l| == CHUNK && forall x: nat :: ListsCount(l, CHUNK, x) == ListsCount(l0, CHUNK, x) + FreedBy(nodes, x)
  }

  lemma GaveBackFirst(nodes: seq<Node>)
    requires nodes != []
    ensures forall x: nat :: FreedBy(nodes[..1], x) == if nodes[0].block == x && nodes[0].at == 0 then 1 else 0
  {
    assert nodes[..1][..0] == [];
    forall x: nat ensures FreedBy(nodes[..1], x) == if nodes[0].block == x && nodes[0].at == 0 then 1 else 0 {
      assert FreedBy([], x) == 0;
    }
  }

  lemma GaveBackNext(nodes: seq<Node>, k: nat)
    requires 0 < k < |nodes|
    ensures forall x: nat :: FreedBy(nodes[..k + 1], x) == FreedBy(nodes[..k], x) + if nodes[k].block == x then 1 else 0
  {
    assert nodes[..k + 1][..k] == nodes[..k];
  }

  lemma {:induction false} FreedOnce(nodes: seq<Node>, x: nat)
    requires Apart(nodes)
    ensures FreedBy(nodes, x) <= 1
    ensures FreedBy(nodes, x) == 1 ==> exists i | 0 <= i < |nodes| :: nodes[i].block == x
  {
    if nodes != [] {
      var init := nodes[..|nodes| - 1];
      FreedOnce(init, x);
      if FreedBy(init, x) == 1 {
        var i :| 0 <= i < |init| && init[i].block == x;
        assert nodes[i].block == x && nodes[|nodes| - 1].block != x;
      }
    }
  }

  lemma GaveBackOk(l0: seq<seq<nat>>, l: seq<seq<nat>>, entries: seq<Word>, mem: Mem, nodes: seq<Node>)
    requires GaveBack(l0, l, nodes) && Apart(nodes) && StoreOk(l0, entries, mem) && InUse(l0, entries, nodes)
    requires forall i | 0 <= i < |nodes| :: nodes[i].block != 0 && nodes[i].block in mem
    ensures StoreOk(l, entries, mem)
  {
    forall x: nat ensures FreeCount(l, entries, x) <= 1 && (FreeCount(l, entries, x) > 0 ==> x in mem && x != 0) {
      FreedOnce(nodes, x);
      assert FreeCount(l, entries, x) == FreeCount(l0, entries, x) + FreedBy(nodes, x);
    }
  }

  lemma LeftoverStored(mem: Mem, nodes: seq<Node>, es: seq<LogEntry>, leftover: nat)
    requires ChainAt(mem, nodes, es) && Apart(nodes)
    ensures var nd, last := nodes[|nodes| - 1], |es| - 1;
            && nd.block in mem && nd.at < |mem[nd.block]| && mem[nd.block][nd.at].Header?
            && ChainAt(Store(mem, nd.block, nd.at, mem[nd.block][nd.at].(leftover := leftover)), nodes,
                es[last := es[last].(leftover := leftover)])
  {
    var nd, last := nodes[|nodes| - 1], |es| - 1;
    assert EntryAt(mem, nodes[last], es[last], NextOf(nodes, last));
    var mem', es' := Store(mem, nd.block, nd.at, mem[nd.block][nd.at].(leftover := leftover)),
        es[last := es[last].(leftover := leftover)];
    forall i | 0 <= i < |nodes| ensures EntryAt(mem', nodes[i], es'[i], NextOf(nodes, i)) {
      assert EntryAt(mem, nodes[i], es[i], NextOf(nodes, i));
    }
  }

  /** `mem'` is `mem` with the body of an entry written at `nd`. */
  ghost predicate FilledBy(mem: Mem, mem': Mem, nd: Node, e: LogEntry)
  {
    && EntryOk(e) && nd.block in mem && |mem[nd.block]| == WORDS && nd.at + FIXED_WORDS + |e.lidxs| <= WORDS
    && mem'.Keys == mem.Keys && (forall b | b in mem && b != nd.block :: mem'[b] == mem[b])
    && var row, row' := mem[nd.block], mem'[nd.block];
       && |row'| == WORDS && row'[nd.at] == SetBody(row[nd.at], e.leftover) && row'[nd.at + 2] == Word(e.beginVidx)
       && (forall j | 0 <= j < |e.lidxs| :: row'[nd.at + FIXED_WORDS + j] == Word(e.lidxs[j]))
       && (forall j | 0 <= j < WORDS && !(nd.at <= j < nd.at + FIXED_WORDS + |e.lidxs|) :: row'[j] == row[j])
       && row'[nd.at + 1] == row[nd.at + 1]
  }

  /** The first `k` entries of the chain are complete, the others laid out. */
  ghost predicate Filling(was: Was, mem: Mem, nodes: seq<Node>, es: seq<LogEntry>, k: nat)
  {
    && |was.lists| == CHUNK && |nodes| == |es| && k <= |es| && Apart(nodes)
    && AllMine(was.lists, was.entries, nodes, was.block, was.at)
    && Untouched(was.lists, was.entries, was.mem, mem, was.block, was.at)
    && (forall i {:trigger NextOf(nodes, i)} | 0 <= i < k :: EntryAt(mem, nodes[i], es[i], NextOf(nodes, i)))
    && (forall i {:trigger NextOf(nodes, i)} | k <= i < |es| ::
          SkelAt(mem, nodes[i], es[i].numBlocks, NextOf(nodes, i)))
  }

  /** From the `k`-th entry on, `es` is the cut of what is left of the mapping. */
  ghost predicate Tail(es: seq<LogEntry>, k: nat, first: nat, v: nat, n: nat, lidxs: seq<nat>, i: nat, leftover: nat)
  {
    && k < |es| && first > 0 && i <= |lidxs| && |lidxs| - i == ChunksFor(n)
    && es[k..] == Pieces(first, v, n, lidxs[i..], leftover)
  }

  /** What the entry to be filled next is to hold. */
  lemma FillingNow(es: seq<LogEntry>, k: nat, first: nat, v: nat, n: nat, lidxs: seq<nat>, i: nat, leftover: nat,
                   j: nat)
    requires Tail(es, k, first, v, n, lidxs, i, leftover) && first <= AVAIL_MAX && j == ChunksFor(es[k].numBlocks)
    ensures i + j <= |lidxs|
    ensures es[k] == LogEntry(v, es[k].numBlocks, lidxs[i..i + j], if k + 1 < |es| then 0 else leftover)
    ensures k + 1 < |es| ==>
              n >= CHUNK * j && Tail(es, k + 1, AVAIL_MAX, v + CHUNK * j, n - CHUNK * j, lidxs, i + j, leftover)
  {
    assert es[k] == es[k..][0];
    if ChunksFor(n) > first {
      PiecesCounts(AVAIL_MAX, v + CHUNK * first, n - CHUNK * first, lidxs[i..][first..], leftover);
      assert lidxs[i..][first..] == lidxs[i + first..];
      assert es[k + 1..] == es[k..][1..];
    }
  }

  lemma UntouchedFilled(lists: seq<seq<nat>>, entries: seq<Word>, mem0: Mem, mem: Mem, mem': Mem, b: nat, at: nat,
                        nd: Node, e: LogEntry)
    requires |lists| == CHUNK && Untouched(lists, entries, mem0, mem, b, at) && Mine(lists, entries, nd, b, at)
    requires FilledBy(mem, mem', nd, e)
    ensures Untouched(lists, entries, mem0, mem', b, at)
  {
    forall x | x in mem0 && FreeCount(lists, entries, x) == 0
      ensures x in mem' && |mem'[x]| == |mem0[x]| && forall k | 0 <= k < |mem0[x]|
          && (x == b ==> k < at) :: mem'[x][k] == mem0[x][k]
    {
    }
  }

  lemma EntryFilled(mem: Mem, mem': Mem, nd: Node, e: LogEntry, next: Option<Node>)
    requires FilledBy(mem, mem', nd, e) && SkelAt(mem, nd, e.numBlocks, next)
    ensures EntryAt(mem', nd, e, next)
  {
  }

  lemma FillingStep(was: Was, mem: Mem, mem': Mem, nodes: seq<Node>, es: seq<LogEntry>, k: nat)
    requires Filling(was, mem, nodes, es, k) && k < |es| && FilledBy(mem, mem', nodes[k], es[k])
    ensures Filling(was, mem', nodes, es, k + 1)
  {
    assert Mine(was.lists, was.entries, nodes[k], was.block, was.at);
    UntouchedFilled(was.lists, was.entries, was.mem, mem, mem', was.block, was.at, nodes[k], es[k]);
    EntryFilled(mem, mem', nodes[k], es[k], NextOf(nodes, k));
    forall i | 0 <= i < k ensures EntryAt(mem', nodes[i], es[i], NextOf(nodes, i)) {
      assert EntryAt(mem, nodes[i], es[i], NextOf(nodes, i));
    }
    forall i | k < i < |es| ensures SkelAt(mem', nodes[i], es[i].numBlocks, NextOf(nodes, i)) {
      assert SkelAt(mem, nodes[i], es[i].numBlocks, NextOf(nodes, i));
    }
  }

  // The state when a chain is begun: free blocks, memory, and the word of the
  // current block from which on it is unused.
  datatype Was = Was(lists: seq<seq<nat>>, entries: seq<Word>, mem: Mem, block: nat, at: nat)

  /** A chain under construction: all nodes but the last are laid out, with the
      counts `done`; `todo` are the counts of the last node and those to come. */
  ghost predicate Progress(was: Was, l: seq<seq<nat>>, e: seq<Word>, mem: Mem, nodes: seq<Node>,
                           done: seq<nat>, todo: seq<nat>, rest: nat, last: Node)
  {
    && |was.lists| == |l| == CHUNK && last.at + FIXED_WORDS < WORDS
    && |nodes| == |done| + 1 && nodes[|done|] == last && todo == CountsFrom(last.at, rest)
    && Apart(nodes) && SkelPrefix(mem, nodes, done)
    && AllMine(was.lists, was.entries, nodes, was.block, was.at) && InUse(l, e, nodes)
    && NoneFreed(was.lists, was.entries, l, e)
    && Untouched(was.lists, was.entries, was.mem, mem, was.block, was.at)
  }

  lemma ProgressRest(was: Was, l: seq<seq<nat>>, e: seq<Word>, mem: Mem, nodes: seq<Node>, done: seq<nat>,
                     todo: seq<nat>,
                     rest: nat, last: Node, num: nat)
    requires Progress(was, l, e, mem, nodes, done, todo, rest, last)
    requires ChunksFor(rest) > Avail(last.at) && num == CHUNK * Avail(last.at)
    ensures 0 < num <= rest && todo != [] && done + todo == done + [num] + todo[1..]
  {
  }

  lemma ProgressStep(was: Was, l: seq<seq<nat>>, e: seq<Word>, mem: Mem, nodes: seq<Node>, done: seq<nat>,
                     todo: seq<nat>,
                     rest: nat, last: Node, l': seq<seq<nat>>, e': seq<Word>, b: nat, num: nat)
    requires Progress(was, l, e, mem, nodes, done, todo, rest, last)
    requires ChunksFor(rest) > Avail(last.at) && num == CHUNK * Avail(last.at)
    requires last.block in mem && |mem[last.block]| == WORDS
    requires NoneFreed(l, e, l', e') && FreeCount(l, e, b) == 1 && FreeCount(l', e', b) == 0
    ensures rest >= num && todo != []
    ensures Progress(was, l', e', Laid(mem, last, num, b), nodes + [Node(b, 0)], done + [num], todo[1..], rest - num,
        Node(b, 0))
  {
    assert Mine(was.lists, was.entries, nodes[|done|], was.block, was.at);
    assert FreeCount(l, e, b) <= FreeCount(was.lists, was.entries, b);
    NodeLaid(mem, nodes, done, num, b);
    UntouchedLaid(was.lists, was.entries, was.mem, mem, was.block, was.at, last, num, b);
  }

  lemma ProgressAdvances(was: Was, l: seq<seq<nat>>, e: seq<Word>, mem: Mem, nodes: seq<Node>, done: seq<nat>,
                         todo: seq<nat>, rest: nat, last: Node, l': seq<seq<nat>>, e': seq<Word>, at: nat)
    requires Progress(was, l, e, mem, nodes, done, todo, rest, last) && NoneFreed(l, e, l', e') && at >= last.at
    requires FreeCount(was.lists, was.entries, was.block) == 0
    ensures Advances(was, l', e', last.block, at)
  {
    assert Mine(was.lists, was.entries, nodes[|done|], was.block, was.at);
    forall x: nat ensures FreeCount(l', e', x) <= FreeCount(was.lists, was.entries, x) {
      assert FreeCount(l, e, x) <= FreeCount(was.lists, was.entries, x);
    }
  }

  lemma ProgressEnd(was: Was, l: seq<seq<nat>>, e: seq<Word>, mem: Mem, nodes: seq<Node>, done: seq<nat>,
                    todo: seq<nat>, rest: nat, last: Node)
    requires Progress(was, l, e, mem, nodes, done, todo, rest, last) && ChunksFor(rest) <= Avail(last.at)
    requires last.block in mem && |mem[last.block]| == WORDS
    ensures var mem' := Store(mem, last.block, last.at, SetCount(mem[last.block][last.at], false, rest));
            SkelChain(mem', nodes, done + todo) && Untouched(was.lists, was.entries, was.mem, mem', was.block, was.at)
    ensures Settled(l, e, nodes, done + todo, last.block, last.at + FIXED_WORDS + ChunksFor(rest))
  {
    assert Mine(was.lists, was.entries, nodes[|done|], was.block, was.at);
    LastLaid(mem, nodes, done, rest);
    UntouchedStore(was.lists, was.entries, was.mem, mem, was.block, was.at, last, last.at,
        SetCount(mem[last.block][last.at], false, rest));
  }

  /** The chain's blocks are in use, and what follows word `at` of block `b` is
      not part of it. */
  ghost predicate Settled(lists: seq<seq<nat>>, entries: seq<Word>, nodes: seq<Node>, counts: seq<nat>, b: nat, at: nat)
  {
    && |lists| == CHUNK && |nodes| == |counts|
    && forall i | 0 <= i < |nodes| ::
         && FreeCount(lists, entries, nodes[i].block) == 0
         && (nodes[i].block == b ==> nodes[i].at + FIXED_WORDS + ChunksFor(counts[i]) <= at)
  }

  /** Later appends leave a chain alone: whoever respects the rest of the current
      block and the blocks in use respects every settled chain. */
  lemma ChainKept(lists: seq<seq<nat>>, entries: seq<Word>, mem: Mem, mem': Mem, b: nat, at: nat, nodes: seq<Node>,
                  es: seq<LogEntry>)
    requires |nodes| == |es|
    requires Settled(lists, entries, nodes, seq(|es|, i requires 0 <= i < |es| => es[i].numBlocks), b, at)
    requires Untouched(lists, entries, mem, mem', b, at) && ChainAt(mem, nodes, es)
    ensures ChainAt(mem', nodes, es)
  {
    forall i | 0 <= i < |nodes| ensures EntryAt(mem', nodes[i], es[i], NextOf(nodes, i)) {
      assert EntryAt(mem, nodes[i], es[i], NextOf(nodes, i));
    }
  }

  /** No block becomes free. */
  ghost predicate NoneFreed(l0: seq<seq<nat>>, e0: seq<Word>, l1: seq<seq<nat>>, e1: seq<Word>)
  {
    |l0| == |l1| == CHUNK && forall x: nat :: FreeCount(l1, e1, x) <= FreeCount(l0, e0, x)
  }

  /** Blocks are only taken; the current block is one of them, or the old one, in
      which nothing becomes free again. */
  ghost predicate Advances(was: Was, lists: seq<seq<nat>>, entries: seq<Word>, block: nat, at: nat)
  {
    && NoneFreed(was.lists, was.entries, lists, entries)
    && if block == was.block then at >= was.at else FreeCount(was.lists, was.entries, block) > 0
  }

  ghost predicate InUse(lists: seq<seq<nat>>, entries: seq<Word>, nodes: seq<Node>)
    requires |lists| == CHUNK
  {
    forall i | 0 <= i < |nodes| :: FreeCount(lists, entries, nodes[i].block) == 0
  }

  /** An entry with its count and its link to the next block written. */
  function Laid(mem: Mem, nd: Node, num: nat, next: nat): Mem
    requires nd.block in mem && nd.at + 1 < |mem[nd.block]|
  {
    Store(Store(mem, nd.block, nd.at, SetLink(mem[nd.block][nd.at], num)),
          nd.block, nd.at + 1, Word(next))
  }

  lemma UntouchedStore(lists: seq<seq<nat>>, entries: seq<Word>, mem0: Mem, mem: Mem, b: nat, at: nat, nd: Node,
                       k: nat, c: Cell)
    requires |lists| == CHUNK && Untouched(lists, entries, mem0, mem, b, at) && Mine(lists, entries, nd, b, at)
    requires nd.block in mem && nd.at <= k < |mem[nd.block]|
    ensures Untouched(lists, entries, mem0, Store(mem, nd.block, k, c), b, at)
  {
  }

  lemma UntouchedLaid(lists: seq<seq<nat>>, entries: seq<Word>, mem0: Mem, mem: Mem, b: nat, at: nat, nd: Node,
                      num: nat, next: nat)
    requires |lists| == CHUNK && Untouched(lists, entries, mem0, mem, b, at) && Mine(lists, entries, nd, b, at)
    requires nd.block in mem && nd.at + 1 < |mem[nd.block]|
    ensures Untouched(lists, entries, mem0, Laid(mem, nd, num, next), b, at)
  {
    var c := SetLink(mem[nd.block][nd.at], num);
    UntouchedStore(lists, entries, mem0, mem, b, at, nd, nd.at, c);
    UntouchedStore(lists, entries, mem0, Store(mem, nd.block, nd.at, c), b, at, nd, nd.at + 1, Word(next));
  }

  lemma NodeLaid(mem: Mem, nodes: seq<Node>, done: seq<nat>, num: nat, next: nat)
    requires SkelPrefix(mem, nodes, done) && Apart(nodes)
    requires var nd := nodes[|done|];
        nd.block in mem && |mem[nd.block]| == WORDS && nd.at + FIXED_WORDS + ChunksFor(num) <= WORDS
    ensures SkelPrefix(Laid(mem, nodes[|done|], num, next), nodes + [Node(next, 0)], done + [num])
  {
    var mem', nodes', done' := Laid(mem, nodes[|done|], num, next), nodes + [Node(next, 0)], done + [num];
    forall i | 0 <= i < |done'| ensures SkelAt(mem', nodes'[i], done'[i], NextOf(nodes', i)) {
      if i < |done| { assert SkelAt(mem, nodes[i], done[i], NextOf(nodes, i)); }
    }
  }

  lemma LastLaid(mem: Mem, nodes: seq<Node>, done: seq<nat>, num: nat)
    requires SkelPrefix(mem, nodes, done) && Apart(nodes)
    requires var nd := nodes[|done|];
        nd.block in mem && |mem[nd.block]| == WORDS && nd.at + FIXED_WORDS + ChunksFor(num) <= WORDS
    ensures var nd := nodes[|done|];
            SkelChain(Store(mem, nd.block, nd.at, SetCount(mem[nd.block][nd.at], false, num)), nodes, done + [num])
  {
    var nd := nodes[|done|];
    var mem', done' := Store(mem, nd.block, nd.at, SetCount(mem[nd.block][nd.at], false, num)), done + [num];
    forall i | 0 <= i < |nodes| ensures SkelAt(mem', nodes[i], done'[i], NextOf(nodes, i)) {
      if i < |done| { assert SkelAt(mem, nodes[i], done[i], NextOf(nodes, i)); }
    }
  }

  /** The first word that a new entry may use in the current block. */
  function StartOf(block: nat, offset: nat): nat { if block == 0 then WORDS else offset / 4 }

  ghost predicate SkelChain(mem: Mem, nodes: seq<Node>, counts: seq<nat>)
  {
    |nodes| == |counts| && forall i {:trigger NextOf(nodes, i)} | 0 <= i < |nodes| ::
        SkelAt(mem, nodes[i], counts[i], NextOf(nodes, i))
  }

  /** All nodes but the last one are laid out. */
  ghost predicate SkelPrefix(mem: Mem, nodes: seq<Node>, counts: seq<nat>)
  {
    |nodes| == |counts| + 1 && forall i {:trigger NextOf(nodes, i)} | 0 <= i < |counts| ::
        SkelAt(mem, nodes[i], counts[i], NextOf(nodes, i))
  }

  /** The current block has room for an entry with one element. */
  predicate HasRoom(block: nat, offset: nat) { block != 0 && BLOCK_SIZE - offset >= FIXED_SIZE + 4 }

  /** The first entry goes into the rest of the current block, if there is room, or else
      into a block that was free. */
  ghost predicate Begins(lists: seq<seq<nat>>, entries: seq<Word>, block: nat, offset: nat, head: Node)
    requires |lists| == CHUNK
  {
    if HasRoom(block, offset) then head == Node(block, offset / 4)
    else head.at == 0 && FreeCount(lists, entries, head.block) == 1
  }

  /** A place that a new chain may use: the rest of the current block, or a block
      that was free. */
  ghost predicate Mine(lists: seq<seq<nat>>, entries: seq<Word>, nd: Node, b: nat, at: nat)
    requires |lists| == CHUNK
  {
    FreeCount(lists, entries, nd.block) > 0 || (nd.block == b && nd.at >= at)
  }

  ghost predicate AllMine(lists: seq<seq<nat>>, entries: seq<Word>, nodes: seq<Node>, b: nat, at: nat)
    requires |lists| == CHUNK
  {
    forall i | 0 <= i < |nodes| :: Mine(lists, entries, nodes[i], b, at)
  }
}
