/** Three writes to a new file, the last of which overwrites memory that is not its
    own: the blocks that the second one supersedes are listed as one run, although
    a piece of the mapping ends between them. */
module FileCrossing {
  import opened Layout
  import opened Entry
  import opened Alloc
  import opened Replay
  import opened FileData
  import opened FileMem
  import opened CommitEntry
  import opened MemTable
  import opened FileSeq
  import BF = ByteFile

  /* What the lists hold. */

  /** One run is enough for a write of at most 64 blocks. */
  lemma {:induction false} OneTop(lists: seq<seq<nat>>, addr: nat -> nat, n: nat)
    requires |lists| == CHUNK && 0 < n <= CHUNK && lists[n - 1] != []
    ensures Enough(lists, n) && Tops(lists, n) == [LastOf(lists, n)] && Rest(lists, n) == Pop(lists, n)
    ensures Fillable(addr, Tops(lists, n), n) <==> Contiguous(addr, LastOf(lists, n), n)
  {
    assert Enough(Pop(lists, n), 0) && Tops(Pop(lists, n), 0) == [];
    assert ChunkLen(n, 0) == n;
  }

  /** The last `m` elements, from the end. */
  function TopDown(list: seq<nat>, m: nat): seq<nat>
    requires m <= |list|
  {
    seq(m, i requires 0 <= i < m => list[|list| - 1 - i])
  }

  lemma {:induction false} OneChunk(lists: seq<seq<nat>>, n: nat)
    requires |lists| == CHUNK && n >= CHUNK && lists[CHUNK - 1] != [] && Enough(Pop(lists, CHUNK), n - CHUNK)
    ensures Enough(lists, n) && Tops(lists, n) == [LastOf(lists, CHUNK)] + Tops(Pop(lists, CHUNK), n - CHUNK)
    ensures Rest(lists, n) == Rest(Pop(lists, CHUNK), n - CHUNK)
  {
    var m := Min(n, CHUNK);
    assert m == CHUNK;
    assert Enough(Pop(lists, m), n - m);
  }

  /** A write of whole chunks takes the runs of 64 blocks from the top. */
  lemma {:induction false} WholeTops(lists: seq<seq<nat>>, list: seq<nat>, m: nat, n: nat)
    requires |lists| == CHUNK && lists[CHUNK - 1] == list && m <= |list| && n == CHUNK * m
    ensures Enough(lists, n) && Tops(lists, n) == TopDown(list, m)
    ensures Rest(lists, n) == lists[CHUNK - 1 := list[..|list| - m]]
    decreases m
  {
    if m == 0 {
      assert list[..|list|] == list;
    } else {
      var init := list[..|list| - 1];
      WholeTops(Pop(lists, CHUNK), init, m - 1, n - CHUNK);
      OneChunk(lists, n);
      assert init[..|init| - (m - 1)] == list[..|list| - m];
      assert TopDown(list, m) == [list[|list| - 1]] + TopDown(init, m - 1);
    }
  }

  /** Lists with the run of 10 blocks from 576 on, and `k` runs of 64 blocks that end
      before it. */
  function FirstLists(k: nat): (lists: seq<seq<nat>>)
    requires k <= 8
    ensures |lists| == CHUNK
  {
    if k == 0 then Push(seq(CHUNK, _ => []), 576, 10) else Push(FirstLists(k - 1), CHUNK * (9 - k), CHUNK)
  }

  function Wholes(k: nat): seq<nat>
    requires k <= 8
  {
    seq(k, i requires 0 <= i < k => CHUNK * (8 - i))
  }

  lemma {:induction false} FirstListsHold(k: nat, x: nat)
    requires k <= 8
    ensures FirstLists(k)[9] == [576] && FirstLists(k)[CHUNK - 1] == Wholes(k)
    ensures ListsCount(FirstLists(k), CHUNK, x) == if CHUNK * (9 - k) <= x < 586 then 1 else 0
  {
    if k == 0 {
      var none: seq<seq<nat>> := seq(CHUNK, _ => []);
      EmptyLists(none, CHUNK, x);
      PushCount(none, 576, 10);
      assert FirstLists(0)[9] == none[9] + [576] == [576];
    } else {
      FirstListsHold(k - 1, x);
      PushCount(FirstLists(k - 1), CHUNK * (9 - k), CHUNK);
      assert Wholes(k) == Wholes(k - 1) + [CHUNK * (9 - k)];
    }
  }

  /** A new file can have these lists: no other block is free. */
  lemma FirstFile() returns (entries: seq<Word>, ram: Ram)
    ensures Shape(FirstLists(8), entries, ram, Addr(Spread(GROW)), [], [])
  {
    entries, ram := [], _ => 0;
    forall x: nat ensures FreeCount(FirstLists(8), entries, x) == if 64 <= x < 586 then 1 else 0 {
      FirstListsHold(8, x);
    }
    forall v: nat ensures BlockOf(ram, Addr(Spread(GROW)), 0) == BF.Page([], v) {
      BF.PageOfEmpty(v);
      var block, page := BlockOf(ram, Addr(Spread(GROW)), 0), BF.Page([], v);
      forall i | 0 <= i < BLOCK_SIZE ensures block[i] == page[i] {}
    }
  }

  /* The first write: 512 blocks, to the blocks 64 .. 575. */

  function FirstChunks(): seq<nat> { seq(8, i => if i < 0 then 0 else CHUNK * (i + 1)) }

  function FirstWrite(room: nat): Tx
    requires room > 0
  {
    TxOf(Prepared(false, 0), room, 0, GROW, FirstChunks())
  }

  lemma FirstMaps(room: nat, v: nat)
    requires room > 0
    ensures HistoryOk([FirstWrite(room)]) && Lookup([FirstWrite(room)], v) == if v < GROW then 64 + v else 0
    ensures SizeOf([FirstWrite(room)]) == GROW * BLOCK_SIZE
  {
    var tx := FirstWrite(room);
    TxMeans(Prepared(false, 0), room, 0, GROW, FirstChunks(), v, 0);
    LookupAppend([], tx, v);
    assert [] + [tx] == [tx];
  }

  lemma FirstImage(room: nat)
    requires room > 0
    ensures HistoryOk([FirstWrite(room)]) && Image([FirstWrite(room)], 444, 10) == Consecutive(508, 10)
  {
    FirstMaps(room, 0);
    forall v: nat | 444 <= v < 454 ensures Lookup([FirstWrite(room)], v) == 64 + v { FirstMaps(room, v); }
  }

  lemma {:induction false} FirstTops()
    ensures Enough(FirstLists(8), GROW) && Tops(FirstLists(8), GROW) == FirstChunks()
    ensures Rest(FirstLists(8), GROW)[9] == [576]
  {
    FirstListsHold(8, 0);
    WholeTops(FirstLists(8), Wholes(8), 8, GROW);
    assert TopDown(Wholes(8), 8) == FirstChunks();
  }

  lemma FirstFillable()
    ensures Fillable(Addr(Spread(GROW)), FirstChunks(), GROW)
  {
    var chunks := FirstChunks();
    forall i: nat | i < |chunks| ensures Contiguous(Addr(Spread(GROW)), chunks[i], ChunkLen(GROW, i)) {
      assert ChunkLen(GROW, i) == CHUNK && InOnePiece(GROW, chunks[i], CHUNK);
      OnePieceIsContiguous(Spread(GROW), chunks[i], CHUNK);
    }
  }

  lemma {:induction false} RunsOfNothing(image: seq<nat>)
    requires forall i | 0 <= i < |image| :: image[i] == 0
    ensures Runs(image) == []
  {
    if image != [] { RunsOfNothing(image[..|image| - 1]); }
  }

  lemma AlignedBlocks(v: nat, n: nat)
    ensures NumBlocks(Span(v * BLOCK_SIZE, v * BLOCK_SIZE + n * BLOCK_SIZE)) == n && v * BLOCK_SIZE / BLOCK_SIZE == v
  {
  }

  method WriteFirst(f: SeqFile, room: nat, buf: seq<Byte>) returns (r: Result<nat>)
    requires f.Valid() && f.canWrite && room > 0 && f.place == Spread(GROW) && f.txs == []
    requires f.alloc.lists == FirstLists(8) && |buf| == GROW * BLOCK_SIZE
    modifies f, f.alloc, f.alloc.bitmap
    ensures r.Ok? && f.Valid() && f.txs == [FirstWrite(room)] && f.alloc.lists[9] == [576]
  {
    FirstTops();
    FirstFillable();
    AlignedBlocks(0, GROW);
    RunsOfNothing(Image([], 0, GROW));
    r := f.Pwrite(buf, 0, room);
    assert Prepare(GROW * BLOCK_SIZE, Fits(Inline(GROW, 0, 64)), 0) == Prepared(false, 0);
  }

  /** The run on top of the list of 10 blocks; it can be filled unless it crosses the
      end of a piece. */
  lemma {:induction false} TenBlocks(lists: seq<seq<nat>>, start: nat)
    requires |lists| == CHUNK && lists[9] == [start] && start > 0
    ensures Enough(lists, 10) && Rest(lists, 10) == lists[9 := []]
    ensures Fillable(Addr(Spread(GROW)), Tops(lists, 10), 10) <==> InOnePiece(GROW, start, 10)
  {
    OneTop(lists, Addr(Spread(GROW)), 10);
    if InOnePiece(GROW, start, 10) {
      OnePieceIsContiguous(Spread(GROW), start, 10);
    } else {
      CrossingIsNot(GROW, start, 10);
    }
  }

  lemma {:induction false} OneRun(lists: seq<seq<nat>>, start: nat, n: nat)
    requires |lists| == CHUNK && 0 < n <= CHUNK
    ensures PushAll(lists, [Extent(start, n)]) == Push(lists, start, n)
  {
    assert [Extent(start, n)][..0] == [];
  }

  /** The second write supersedes the blocks 508 .. 517, one run, although the
      mapping's first piece ends at block 512. */
  lemma SecondRuns(room: nat)
    requires room > 0
    ensures HistoryOk([FirstWrite(room)]) && Runs(Image([FirstWrite(room)], 444, 10)) == [Extent(508, 10)]
  {
    FirstImage(room);
    ConsecutiveRuns(508, 10);
  }

  lemma {:induction false} SecondIs(lists: seq<seq<nat>>, lists': seq<seq<nat>>, room: nat, txs': seq<Tx>,
                                    end: nat, r: Result<nat>)
    requires |lists| == CHUNK && lists[9] == [576] && room > 0 && HistoryOk([FirstWrite(room)]) && Enough(lists, 10)
    requires AsListed(lists, lists', [FirstWrite(room)], txs', Spread(GROW), room, 444, 10, end, r)
    ensures r.Ok? && |lists'| == CHUNK && lists'[9] == [508]
  {
    SecondRuns(room);
    TenBlocks(lists, 576);
    OneRun(Rest(lists, 10), 508, 10);
  }

  method WriteSecond(f: SeqFile, room: nat, buf: seq<Byte>) returns (r: Result<nat>)
    requires f.Valid() && f.canWrite && room > 0 && f.place == Spread(GROW) && f.txs == [FirstWrite(room)]
    requires f.alloc.lists[9] == [576] && |buf| == 10 * BLOCK_SIZE
    modifies f, f.alloc, f.alloc.bitmap
    ensures r.Ok? && f.Valid() && f.alloc.lists[9] == [508]
  {
    var offset := 444 * BLOCK_SIZE;
    ghost var lists, end := f.alloc.lists, offset + |buf|;
    assert NumBlocks(Span(offset, end)) == 10 && offset / BLOCK_SIZE == 444 by { AlignedBlocks(444, 10); }
    TenBlocks(lists, 576);
    SecondRuns(room);
    r := f.Pwrite(buf, offset, room);
    SecondIs(lists, f.alloc.lists, room, f.txs, end, r);
  }

  /** The third write gets that run. */
  method WriteThird(f: SeqFile, room: nat, buf: seq<Byte>, v: nat) returns (r: Result<nat>)
    requires f.Valid() && f.canWrite && room > 0 && f.place == Spread(GROW) && |buf| == 10 * BLOCK_SIZE
    requires f.alloc.lists[9] == [508]
    modifies f, f.alloc, f.alloc.bitmap
    ensures r == Err(Overrun)
  {
    var offset := v * BLOCK_SIZE;
    assert NumBlocks(Span(offset, offset + |buf|)) == 10 by { AlignedBlocks(v, 10); }
    TenBlocks(f.alloc.lists, 508);
    r := f.Pwrite(buf, offset, room);
    assert r.error.BadFile? || r.error.NoSpace? || r.error.Overrun?;
  }

  /** The first two writes succeed; the third one, wherever it goes, does not. */
  method CrossingExample(f: SeqFile, room: nat, first: seq<Byte>, second: seq<Byte>, third: seq<Byte>, v: nat)
    returns (r1: Result<nat>, r2: Result<nat>, r3: Result<nat>)
    requires f.Valid() && f.canWrite && room > 0 && f.place == Spread(GROW) && f.txs == []
    requires f.alloc.lists == FirstLists(8)
    requires |first| == GROW * BLOCK_SIZE && |second| == |third| == 10 * BLOCK_SIZE
    modifies f, f.alloc, f.alloc.bitmap
    ensures r1.Ok? && r2.Ok? && r3 == Err(Overrun)
  {
    r1 := WriteFirst(f, room, first);
    r2 := WriteSecond(f, room, second);
    r3 := WriteThird(f, room, third, v);
  }
}
