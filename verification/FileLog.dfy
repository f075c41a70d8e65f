/** A write takes its data blocks and the blocks of its log entries from the same
    allocator. Data blocks, log blocks and free blocks stay apart. */
module FileLog {
  import opened Layout
  import opened Entry
  import opened Alloc
  import opened Replay
  import opened FileData
  import opened FileMem
  import opened CommitEntry
  import opened MemTable
  import opened FileSeq
  import opened BlkTable
  import L = LogChain
  import BF = ByteFile

  /** The log blocks `used`, with `curr` the current one, are neither free nor mapped,
      and every mapped block exists. */
  ghost predicate LogsApart(lists: seq<seq<nat>>, entries: seq<Word>, txs: seq<Tx>, mem: L.Mem, used: set<nat>,
                            curr: nat)
    requires |lists| == CHUNK && HistoryOk(txs)
  {
    && (forall b | b in used :: OwnedAt(lists, entries, txs, b)) && (curr == 0 || curr in used)
    && forall v: nat :: Lookup(txs, v) == 0 || Lookup(txs, v) in mem
  }

  /** The destination is not among the log blocks, and exists. */
  ghost predicate DataApart(lidxs: seq<nat>, n: nat, mem: L.Mem, used: set<nat>)
  {
    forall k | 0 <= k < n :: Nth(lidxs, k) !in used && Nth(lidxs, k) in mem
  }

  ghost function BlocksOf(nodes: seq<L.Node>): set<nat> { set i | 0 <= i < |nodes| :: nodes[i].block }

  /* Taking the data blocks. */

  lemma OwnedShrinks(l0: seq<seq<nat>>, e0: seq<Word>, l: seq<seq<nat>>, e: seq<Word>, txs: seq<Tx>, x: nat)
    requires L.NoneFreed(l0, e0, l, e) && HistoryOk(txs) && OwnedAt(l0, e0, txs, x)
    ensures OwnedAt(l, e, txs, x)
  {
    assert FreeCount(l, e, x) <= FreeCount(l0, e0, x);
  }

  lemma ApartShrinks(l0: seq<seq<nat>>, e0: seq<Word>, l: seq<seq<nat>>, e: seq<Word>, txs: seq<Tx>, mem: L.Mem,
                     used: set<nat>, curr: nat)
    requires L.NoneFreed(l0, e0, l, e) && HistoryOk(txs) && LogsApart(l0, e0, txs, mem, used, curr)
    ensures LogsApart(l, e, txs, mem, used, curr)
  {
    forall b | b in used ensures OwnedAt(l, e, txs, b) { OwnedShrinks(l0, e0, l, e, txs, b); }
  }

  lemma StoreShrinks(l0: seq<seq<nat>>, e0: seq<Word>, l: seq<seq<nat>>, e: seq<Word>, mem: L.Mem, b: nat, offset: nat)
    requires L.NoneFreed(l0, e0, l, e) && L.StoreOk(l0, e0, mem) && L.PlaceOk(l0, e0, mem, b, offset)
    ensures L.StoreOk(l, e, mem) && L.PlaceOk(l, e, mem, b, offset)
  {
    forall x: nat ensures FreeCount(l, e, x) <= 1 && (FreeCount(l, e, x) > 0 ==> x in mem && x != 0) {
      assert FreeCount(l, e, x) <= FreeCount(l0, e0, x);
    }
    assert FreeCount(l, e, b) <= FreeCount(l0, e0, b);
  }

  lemma ShapeShrinks(l0: seq<seq<nat>>, e0: seq<Word>, l: seq<seq<nat>>, e: seq<Word>, ram: Ram, addr: nat -> nat,
                     txs: seq<Tx>, f: BF.File)
    requires L.NoneFreed(l0, e0, l, e) && Shape(l0, e0, ram, addr, txs, f)
    ensures Shape(l, e, ram, addr, txs, f)
  {
    forall x: nat ensures FreeCount(l, e, x) <= 1 && (FreeCount(l, e, x) == 1 ==> x != 0) {
      assert FreeCount(l, e, x) <= FreeCount(l0, e0, x);
    }
    forall v: nat ensures Lookup(txs, v) != 0 ==> FreeCount(l, e, Lookup(txs, v)) == 0 {
      assert FreeCount(l, e, Lookup(txs, v)) <= FreeCount(l0, e0, Lookup(txs, v));
    }
  }

  lemma TookNoneFreed(l0: seq<seq<nat>>, e0: seq<Word>, l: seq<seq<nat>>, e: seq<Word>, lidxs: seq<nat>, n: nat)
    requires Took(l0, e0, l, e, lidxs, n)
    ensures L.NoneFreed(l0, e0, l, e)
  {
    forall x: nat ensures FreeCount(l, e, x) <= FreeCount(l0, e0, x) {
      assert FreeCount(l, e, x) + HeldIn(lidxs, n, |lidxs|, x) == FreeCount(l0, e0, x);
    }
  }

  /** What was taken had been free, and so is not a log block. */
  lemma TookApart(l0: seq<seq<nat>>, e0: seq<Word>, l: seq<seq<nat>>, e: seq<Word>, txs: seq<Tx>, lidxs: seq<nat>,
                  n: nat, mem: L.Mem, used: set<nat>, curr: nat)
    requires Took(l0, e0, l, e, lidxs, n) && |lidxs| == ChunksFor(n) && L.StoreOk(l0, e0, mem)
    requires HistoryOk(txs) && LogsApart(l0, e0, txs, mem, used, curr)
    ensures DataApart(lidxs, n, mem, used)
  {
    forall k | 0 <= k < n ensures Nth(lidxs, k) !in used && Nth(lidxs, k) in mem {
      ChunkIndex(k, n);
      HeldAtLeast(lidxs, n, |lidxs|, k);
      var x := Nth(lidxs, k);
      assert FreeCount(l, e, x) + HeldIn(lidxs, n, |lidxs|, x) == FreeCount(l0, e0, x);
      assert x in used ==> OwnedAt(l0, e0, txs, x);
    }
  }

  /* Taking the log blocks. */

  /** A block that is free, or the current log block. */
  ghost predicate Takeable(lists: seq<seq<nat>>, entries: seq<Word>, curr: nat, b: nat)
    requires |lists| == CHUNK
  {
    FreeCount(lists, entries, b) > 0 || (b == curr && b != 0)
  }

  lemma TakenLog(l0: seq<seq<nat>>, e0: seq<Word>, l: seq<seq<nat>>, e: seq<Word>, txs: seq<Tx>, mem: L.Mem,
                 used: set<nat>, curr: nat, b: nat)
    requires |l0| == |l| == CHUNK && HistoryOk(txs) && LogsApart(l0, e0, txs, mem, used, curr)
    requires LiveOk(l0, e0, txs) && L.StoreOk(l0, e0, mem) && Takeable(l0, e0, curr, b) && FreeCount(l, e, b) == 0
    ensures OwnedAt(l, e, txs, b)
  {
    if FreeCount(l0, e0, b) > 0 {
      forall v: nat ensures Lookup(txs, v) != b {
        assert Lookup(txs, v) != 0 ==> FreeCount(l0, e0, Lookup(txs, v)) == 0;
      }
    } else {
      assert OwnedAt(l0, e0, txs, b);
    }
  }

  lemma NotData(l0: seq<seq<nat>>, e0: seq<Word>, txs: seq<Tx>, lidxs: seq<nat>, n: nat, mem: L.Mem, used: set<nat>,
                curr: nat, b: nat)
    requires |l0| == CHUNK && HistoryOk(txs) && Owned(l0, e0, txs, lidxs, n) && DataApart(lidxs, n, mem, used)
    requires Takeable(l0, e0, curr, b) && (curr == 0 || curr in used)
    ensures Elsewhere(lidxs, n, b)
  {
    forall k | 0 <= k < n ensures Nth(lidxs, k) != b { assert OwnedAt(l0, e0, txs, Nth(lidxs, k)); }
  }

  /** The log blocks after an append. */
  lemma AppendApart(l0: seq<seq<nat>>, e0: seq<Word>, l: seq<seq<nat>>, e: seq<Word>, txs: seq<Tx>, mem: L.Mem,
                    mem': L.Mem, used: set<nat>, curr: nat, more: set<nat>, curr': nat, lidxs: seq<nat>, n: nat)
    requires L.NoneFreed(l0, e0, l, e) && HistoryOk(txs) && LogsApart(l0, e0, txs, mem, used, curr)
    requires LiveOk(l0, e0, txs) && L.StoreOk(l0, e0, mem) && Owned(l0, e0, txs, lidxs, n)
    requires DataApart(lidxs, n, mem, used)
    requires forall b | b in more :: Takeable(l0, e0, curr, b) && FreeCount(l, e, b) == 0
    requires curr' == 0 || curr' in more || curr' in used
    requires forall x | x in mem && FreeCount(l0, e0, x) == 0 :: x in mem'
    ensures LogsApart(l, e, txs, mem', used + more, curr') && DataApart(lidxs, n, mem', used + more)
  {
    forall b | b in used + more ensures OwnedAt(l, e, txs, b) {
      if b in used { OwnedShrinks(l0, e0, l, e, txs, b); } else { TakenLog(l0, e0, l, e, txs, mem, used, curr, b); }
    }
    forall k | 0 <= k < n ensures Nth(lidxs, k) !in used + more && Nth(lidxs, k) in mem' {
      assert OwnedAt(l0, e0, txs, Nth(lidxs, k));
      forall b | b in more ensures b != Nth(lidxs, k) { NotData(l0, e0, txs, lidxs, n, mem, used, curr, b); }
    }
    forall v: nat ensures Lookup(txs, v) == 0 || Lookup(txs, v) in mem' {
      assert Lookup(txs, v) == 0 || (Lookup(txs, v) in mem && FreeCount(l0, e0, Lookup(txs, v)) == 0);
    }
  }

  /* Committing and recycling. */

  /** Superseded blocks are mapped, so none of them is a log block. */
  lemma CommitApart(lists: seq<seq<nat>>, lists': seq<seq<nat>>, entries: seq<Word>, txs: seq<Tx>, tx: Tx, mem: L.Mem,
                    used: set<nat>, curr: nat, offset: nat, lidxs: seq<nat>, begin: nat, n: nat)
    requires |lists| == CHUNK && HistoryOk(txs) && TxOk(tx) && Maps(txs, tx, lidxs, begin, n)
    requires LogsApart(lists, entries, txs, mem, used, curr) && DataApart(lidxs, n, mem, used)
    requires LiveOk(lists, entries, txs)
    requires L.StoreOk(lists, entries, mem) && L.PlaceOk(lists, entries, mem, curr, offset)
    requires Returned(lists, lists', Image(txs, begin, n)) && Frees(lists', entries)
    ensures HistoryOk(txs + [tx]) && LogsApart(lists', entries, txs + [tx], mem, used, curr)
    ensures L.StoreOk(lists', entries, mem) && L.PlaceOk(lists', entries, mem, curr, offset)
  {
    var image, txs' := Image(txs, begin, n), txs + [tx];
    ImageDistinct(lists, entries, txs, begin, n);
    forall x: nat ensures FreeCount(lists', entries, x)
                       == FreeCount(lists, entries, x) + if x != 0 && x in image then 1 else 0 {
      OccursOnce(image, x);
    }
    forall b | b in used ensures OwnedAt(lists', entries, txs', b) {
      assert OwnedAt(lists, entries, txs, b) && b !in image;
      forall v: nat ensures Lookup(txs', v) != b { if Within(begin, n, v) { assert Nth(lidxs, v - begin) !in used; } }
    }
    forall v: nat ensures Lookup(txs', v) == 0 || Lookup(txs', v) in mem {
      if Within(begin, n, v) { assert Nth(lidxs, v - begin) in mem; }
    }
    forall x: nat | FreeCount(lists', entries, x) > 0 ensures x in mem && x != 0 {
      if x != 0 && x in image {
        var k :| 0 <= k < n && image[k] == x;
        assert Lookup(txs, begin + k) == x;
      }
    }
    assert curr != 0 ==> OwnedAt(lists', entries, txs', curr);
  }

  lemma WrittenApart(lists: seq<seq<nat>>, lists': seq<seq<nat>>, entries: seq<Word>, txs: seq<Tx>, room: nat,
                     lidxs: seq<nat>, begin: nat, n: nat, end: nat, mem: L.Mem, used: set<nat>, curr: nat, offset: nat)
    requires |lists| == CHUNK && HistoryOk(txs) && room > 0 && n > 0 && |lidxs| == ChunksFor(n)
    requires begin + n == BlocksFor(end) && Listable(Runs(Image(txs, begin, n)))
    requires LogsApart(lists, entries, txs, mem, used, curr) && DataApart(lidxs, n, mem, used)
    requires LiveOk(lists, entries, txs)
    requires L.StoreOk(lists, entries, mem) && L.PlaceOk(lists, entries, mem, curr, offset)
    requires lists' == PushAll(lists, Runs(Image(txs, begin, n))) && Frees(lists', entries)
    ensures var txs' := txs + [Written(txs, room, begin, n, lidxs, end)];
            HistoryOk(txs') && LogsApart(lists', entries, txs', mem, used, curr)
    ensures L.StoreOk(lists', entries, mem) && L.PlaceOk(lists', entries, mem, curr, offset)
  {
    CommitMeaning(txs, room, begin, n, lidxs, end);
    ImageCount(lists, Image(txs, begin, n));
    CommitApart(lists, lists', entries, txs, Written(txs, room, begin, n, lidxs, end), mem, used, curr, offset, lidxs,
                begin, n);
  }

  /* The log in memory. */

  /** The slot of a transaction whose log entries are at `nodes`. */
  function SlotOf(tx: Tx, nodes: seq<L.Node>): TxEntry
  {
    match tx
    case InlineTx(n, v, l) => Inline(n, v, l)
    case ChainTx(_) => if nodes == [] then Inline(0, 0, 0) else Indirect(nodes[0].block, 4 * nodes[0].at)
  }

  /** The log entries of a chain end before word `at` of block `b`. */
  ghost predicate EndsBefore(nodes: seq<L.Node>, es: seq<LogEntry>, b: nat, at: nat)
  {
    |nodes| == |es| && forall j | 0 <= j < |nodes| && nodes[j].block == b ::
      nodes[j].at + L.FIXED_WORDS + ChunksFor(es[j].numBlocks) <= at
  }

  /** A transaction is in memory, in log blocks, outside the free rest of the current
      one. */
  ghost predicate Spelled(mem: L.Mem, used: set<nat>, tx: Tx, nodes: seq<L.Node>, curr: nat, at: nat)
  {
    && Means(mem, SlotOf(tx, nodes), nodes, tx) && BlocksOf(nodes) <= used
    && (tx.ChainTx? ==> EndsBefore(nodes, tx.entries, curr, at))
  }

  ghost predicate AllSpelled(mem: L.Mem, used: set<nat>, txs: seq<Tx>, paths: seq<seq<L.Node>>, curr: nat, at: nat)
  {
    |paths| == |txs| && forall i | 0 <= i < |txs| :: Spelled(mem, used, txs[i], paths[i], curr, at)
  }

  function Slots(txs: seq<Tx>, paths: seq<seq<L.Node>>): seq<TxEntry>
    requires |paths| == |txs|
  {
    seq(|txs|, i requires 0 <= i < |txs| => SlotOf(txs[i], paths[i]))
  }

  /** So the slots mean the transactions. */
  lemma SlotsMean(mem: L.Mem, used: set<nat>, txs: seq<Tx>, paths: seq<seq<L.Node>>, curr: nat, at: nat)
    requires AllSpelled(mem, used, txs, paths, curr, at)
    ensures LogMeans(mem, Slots(txs, paths), paths, txs)
  {
    forall i | 0 <= i < |txs| ensures Means(mem, Slots(txs, paths)[i], paths[i], txs[i]) {
      assert Spelled(mem, used, txs[i], paths[i], curr, at);
    }
  }

  /** An append leaves the log entries of other transactions alone. */
  lemma StaysSpelled(was: L.Was, l: seq<seq<nat>>, e: seq<Word>, mem: L.Mem, used: set<nat>, used': set<nat>, tx: Tx,
                     nodes: seq<L.Node>, curr: nat, at: nat)
    requires Spelled(was.mem, used, tx, nodes, was.block, was.at) && used <= used' && |was.lists| == CHUNK
    requires forall b | b in used :: FreeCount(was.lists, was.entries, b) == 0
    requires L.Untouched(was.lists, was.entries, was.mem, mem, was.block, was.at) && L.Advances(was, l, e, curr, at)
    ensures Spelled(mem, used', tx, nodes, curr, at)
  {
    if tx.ChainTx? {
      var es := tx.entries;
      forall j | 0 <= j < |nodes| ensures nodes[j].block in used { assert nodes[j].block in BlocksOf(nodes); }
      L.ChainKept(was.lists, was.entries, was.mem, mem, was.block, was.at, nodes, es);
    }
  }

  lemma AllStaySpelled(was: L.Was, l: seq<seq<nat>>, e: seq<Word>, mem: L.Mem, used: set<nat>, used': set<nat>,
                       txs: seq<Tx>, paths: seq<seq<L.Node>>, curr: nat, at: nat)
    requires AllSpelled(was.mem, used, txs, paths, was.block, was.at) && used <= used' && |was.lists| == CHUNK
    requires forall b | b in used :: FreeCount(was.lists, was.entries, b) == 0
    requires L.Untouched(was.lists, was.entries, was.mem, mem, was.block, was.at) && L.Advances(was, l, e, curr, at)
    ensures AllSpelled(mem, used', txs, paths, curr, at)
  {
    forall i | 0 <= i < |txs| ensures Spelled(mem, used', txs[i], paths[i], curr, at) {
      assert Spelled(was.mem, used, txs[i], paths[i], was.block, was.at);
      StaysSpelled(was, l, e, mem, used, used', txs[i], paths[i], curr, at);
    }
  }

  lemma ResetSpelled(mem: L.Mem, used: set<nat>, txs: seq<Tx>, paths: seq<seq<L.Node>>, curr: nat, at: nat, at': nat)
    requires AllSpelled(mem, used, txs, paths, curr, at) && 0 !in used
    ensures AllSpelled(mem, used, txs, paths, 0, at')
  {
    forall i | 0 <= i < |txs| ensures Spelled(mem, used, txs[i], paths[i], 0, at') {
      assert Spelled(mem, used, txs[i], paths[i], curr, at);
      forall j | 0 <= j < |paths[i]| ensures paths[i][j].block != 0 { assert paths[i][j].block in BlocksOf(paths[i]); }
    }
  }

  lemma SpelledMore(mem: L.Mem, used: set<nat>, txs: seq<Tx>, paths: seq<seq<L.Node>>, curr: nat, at: nat, tx: Tx,
                    nodes: seq<L.Node>)
    requires AllSpelled(mem, used, txs, paths, curr, at) && Spelled(mem, used, tx, nodes, curr, at)
    ensures AllSpelled(mem, used, txs + [tx], paths + [nodes], curr, at)
  {
    var txs', paths' := txs + [tx], paths + [nodes];
    forall i | 0 <= i < |txs'| ensures Spelled(mem, used, txs'[i], paths'[i], curr, at) {
      if i < |txs| { assert Spelled(mem, used, txs[i], paths[i], curr, at); }
    }
  }

  /** An appended chain ends before the rest of the current block. */
  lemma SettledEnds(lists: seq<seq<nat>>, entries: seq<Word>, nodes: seq<L.Node>, begin: nat, n: nat, lidxs: seq<nat>,
                    leftover: nat, b: nat, at: nat)
    requires nodes != [] && nodes[0].at + L.FIXED_WORDS < L.WORDS && |lidxs| == ChunksFor(n)
    requires L.Settled(lists, entries, nodes, L.CountsFrom(nodes[0].at, n), b, at)
    ensures EndsBefore(nodes, L.Pieces(L.Avail(nodes[0].at), begin, n, lidxs, leftover), b, at)
  {
    L.PiecesCounts(L.Avail(nodes[0].at), begin, n, lidxs, leftover);
  }

  /** A chain that spells the entries of a transaction, as a whole. */
  lemma ChainIsSpelled(mem: L.Mem, used: set<nat>, entry: Prepared, room: nat, begin: nat, n: nat, lidxs: seq<nat>,
                       nodes: seq<L.Node>, curr: nat, at: nat)
    requires room > 0 && n > 0 && |lidxs| == ChunksFor(n) && !entry.inlined && entry.leftover < BLOCK_SIZE
    requires L.ChainAt(mem, nodes, L.Pieces(room, begin, n, lidxs, entry.leftover)) && BlocksOf(nodes) <= used
    requires EndsBefore(nodes, L.Pieces(room, begin, n, lidxs, entry.leftover), curr, at)
    ensures Spelled(mem, used, TxOf(entry, room, begin, n, lidxs), nodes, curr, at)
  {
    TxMeans(entry, room, begin, n, lidxs, 0, 0);
    assert nodes[0] == L.Node(nodes[0].block, 4 * nodes[0].at / 4);
  }

  /* The file with its log. */

  /** The chain starts in the rest of the current log block, if there is room, or else in
      a block that no other transaction uses; the latter for all its blocks if the writer
      starts a new log block. */
  ghost predicate Placed(nodes: seq<L.Node>, moved: bool, used: set<nat>, curr: nat, offset: nat)
  {
    && nodes != [] && (moved ==> BlocksOf(nodes) !! used)
    && if !moved && L.HasRoom(curr, offset) then nodes[0] == L.Node(curr, offset / 4)
       else nodes[0].at == 0 && nodes[0].block !in used
  }

  /** One more chain, which is empty or in its place. */
  ghost predicate LogGrows(paths: seq<seq<L.Node>>, paths': seq<seq<L.Node>>, moved: bool, used: set<nat>, curr: nat,
                           offset: nat)
  {
    && |paths'| == |paths| + 1 && paths <= paths'
    && var nodes := paths'[|paths|]; nodes != [] ==> Placed(nodes, moved, used, curr, offset)
  }

  lemma ChainIsPlaced(lists: seq<seq<nat>>, entries: seq<Word>, txs: seq<Tx>, mem: L.Mem, used: set<nat>, curr: nat,
                      offset: nat, nodes: seq<L.Node>)
    requires |lists| == CHUNK && HistoryOk(txs) && LogsApart(lists, entries, txs, mem, used, curr) && nodes != []
    requires L.Begins(lists, entries, curr, offset, nodes[0])
    requires forall b | b in BlocksOf(nodes) :: Takeable(lists, entries, curr, b)
    ensures Placed(nodes, false, used, curr, offset) && (curr == 0 ==> Placed(nodes, true, used, curr, offset))
  {
    forall b | b in used ensures FreeCount(lists, entries, b) == 0 { assert OwnedAt(lists, entries, txs, b); }
  }

  class LoggedFile {
    const file: SeqFile
    const logs: L.LogEntryAllocator
    ghost var used: set<nat>
    ghost var paths: seq<seq<L.Node>>

    /** The file is in order, and its whole history is in memory, in blocks that are
        neither free nor part of the file. */
    ghost predicate Valid()
      reads this, file, file.alloc, file.alloc.bitmap, logs
    {
      && logs.blocks == file.alloc && file.Valid() && logs.Valid()
      && LogsApart(file.alloc.lists, file.alloc.bitmap.entries, file.txs, logs.mem, used, logs.currBlock)
      && AllSpelled(logs.mem, used, file.txs, paths, logs.currBlock, L.StartOf(logs.currBlock, logs.currOffset))
    }

    constructor (file: SeqFile, logs: L.LogEntryAllocator)
      requires file.Valid() && logs.Valid() && logs.blocks == file.alloc && logs.currBlock == 0 && file.txs == []
      ensures Valid() && this.file == file && this.logs == logs && used == {}
    {
      this.file, this.logs, used, paths := file, logs, {}, [];
    }

    /** What is in the slots means the history that the file represents. */
    lemma Replayable()
      requires Valid()
      ensures LogMeans(logs.mem, Slots(file.txs, paths), paths, file.txs)
    {
      SlotsMean(logs.mem, used, file.txs, paths, logs.currBlock, L.StartOf(logs.currBlock, logs.currOffset));
    }

    /** The data blocks. */
    method TakeData(n: nat) returns (ok: bool, lidxs: seq<nat>)
      requires Valid()
      modifies file.alloc, file.alloc.bitmap
      ensures Valid() && (!ok ==> Exhausted(file.alloc.recent, file.alloc.bitmap.entries))
      ensures ok ==> Owned(file.alloc.lists, file.alloc.bitmap.entries, file.txs, lidxs, n)
      ensures ok ==> DataApart(lidxs, n, logs.mem, used)
      ensures Pieced(old(file.alloc.lists), file.place.first) ==>
                InPieces(file.alloc.lists, file.place.first, lidxs, n)
    {
      ghost var l0, e0 := file.alloc.lists, file.alloc.bitmap.entries;
      ok, lidxs := file.AllocChunks(n);
      ghost var l, e := file.alloc.lists, file.alloc.bitmap.entries;
      TookNoneFreed(l0, e0, l, e, lidxs, n);
      ApartShrinks(l0, e0, l, e, file.txs, logs.mem, used, logs.currBlock);
      StoreShrinks(l0, e0, l, e, logs.mem, logs.currBlock, logs.currOffset);
      if ok { TookApart(l0, e0, l, e, file.txs, lidxs, n, logs.mem, used, logs.currBlock); }
    }

    /** The log entries of the transaction that maps `lidxs`, if it has any. A writer
        that has seen a new transaction block starts a new log block. */
    method TakeLog(entry: Prepared, begin: nat, n: nat, lidxs: seq<nat>, moved: bool)
      returns (ok: bool, room: nat, ghost nodes: seq<L.Node>)
      requires Valid() && n > 0 && Owned(file.alloc.lists, file.alloc.bitmap.entries, file.txs, lidxs, n)
      requires DataApart(lidxs, n, logs.mem, used) && entry.leftover < BLOCK_SIZE
      modifies this, logs, file.alloc, file.alloc.bitmap
      ensures Valid() && room > 0 && (!ok ==> Exhausted(file.alloc.recent, file.alloc.bitmap.entries))
      ensures Owned(file.alloc.lists, file.alloc.bitmap.entries, file.txs, lidxs, n)
      ensures DataApart(lidxs, n, logs.mem, used)
      ensures ok ==> Spelled(logs.mem, used, TxOf(entry, room, begin, n, lidxs), nodes, logs.currBlock,
                             L.StartOf(logs.currBlock, logs.currOffset))
      ensures paths == old(paths)
      ensures ok ==> if entry.inlined then nodes == []
                     else Placed(nodes, moved, old(used), old(logs.currBlock), old(logs.currOffset))
    {
      if moved { NewLogBlock(); }
      ok, room, nodes := true, 1, [];
      if !entry.inlined {
        ok, room, nodes := AppendLog(entry.leftover, begin, n, lidxs);
        if ok {
          ChainIsSpelled(logs.mem, used, entry, room, begin, n, lidxs, nodes, logs.currBlock,
                         L.StartOf(logs.currBlock, logs.currOffset));
        }
      }
    }

    /** Makes the next transaction start a new log block. */
    method NewLogBlock()
      requires Valid()
      modifies logs
      ensures Valid() && logs.mem == old(logs.mem) && logs.currBlock == 0
    {
      ghost var curr, at := logs.currBlock, L.StartOf(logs.currBlock, logs.currOffset);
      logs.Reset();
      assert 0 in used ==> OwnedAt(file.alloc.lists, file.alloc.bitmap.entries, file.txs, 0);
      ResetSpelled(logs.mem, used, file.txs, paths, curr, at, L.StartOf(0, logs.currOffset));
    }

    /** A chain of log entries, in free blocks and the rest of the current one. */
    method AppendLog(leftover: nat, begin: nat, n: nat, lidxs: seq<nat>)
      returns (ok: bool, room: nat, ghost nodes: seq<L.Node>)
      requires Valid() && n > 0 && Owned(file.alloc.lists, file.alloc.bitmap.entries, file.txs, lidxs, n)
      requires DataApart(lidxs, n, logs.mem, used)
      modifies this, logs, file.alloc, file.alloc.bitmap
      ensures Valid() && room > 0 && (!ok ==> Exhausted(file.alloc.recent, file.alloc.bitmap.entries))
      ensures Owned(file.alloc.lists, file.alloc.bitmap.entries, file.txs, lidxs, n)
      ensures DataApart(lidxs, n, logs.mem, used)
      ensures ok ==> BlocksOf(nodes) <= used && L.ChainAt(logs.mem, nodes, L.Pieces(room, begin, n, lidxs, leftover))
      ensures ok ==> EndsBefore(nodes, L.Pieces(room, begin, n, lidxs, leftover), logs.currBlock,
                                L.StartOf(logs.currBlock, logs.currOffset))
      ensures paths == old(paths)
      ensures ok ==> Placed(nodes, false, old(used), old(logs.currBlock), old(logs.currOffset))
      ensures ok && old(logs.currBlock) == 0 ==>
                Placed(nodes, true, old(used), old(logs.currBlock), old(logs.currOffset))
    {
      ghost var l0, e0, mem0, curr0 := file.alloc.lists, file.alloc.bitmap.entries, logs.mem, logs.currBlock;
      ghost var at0 := L.StartOf(curr0, logs.currOffset);
      var head;
      ok, head, nodes := logs.Append(leftover, n, begin, lidxs);
      ghost var l, e, curr := file.alloc.lists, file.alloc.bitmap.entries, logs.currBlock;
      ghost var at, more := L.StartOf(curr, logs.currOffset), TakenBlocks(ok, nodes, curr);
      room := 1;
      if ok {
        room := L.Avail(head.at);
        SettledEnds(l, e, nodes, begin, n, lidxs, leftover, curr, at);
      }
      ghost var was := L.Was(l0, e0, mem0, curr0, at0);
      MoreTakeable(was, l, e, logs.mem, nodes, L.Pieces(room, begin, n, lidxs, leftover), ok, n, curr, at);
      if ok { ChainIsPlaced(l0, e0, file.txs, mem0, used, curr0, old(logs.currOffset), nodes); }
      AppendApart(l0, e0, l, e, file.txs, mem0, logs.mem, used, curr0, more, curr, lidxs, n);
      ShapeShrinks(l0, e0, l, e, file.ram, Addr(file.place), file.txs, file.file);
      OwnedAllShrinks(l0, e0, l, e, file.txs, lidxs, n);
      AllStaySpelled(was, l, e, logs.mem, used, used + more, file.txs, paths, curr, at);
      used := used + more;
    }

    /** `pwrite` with its log: unless memory that is not the write's own is overwritten,
        the file changes as a byte array does, or not at all, and the log says so. */
    method Pwrite(buf: seq<Byte>, offset: nat, moved: bool) returns (r: Result<nat>)
      requires Valid()
      modifies this, file, logs, file.alloc, file.alloc.bitmap
      ensures r.Ok? ==> r.value == |buf| && file.file == BF.Write(old(file.file), BF.Update(offset, buf))
      ensures r != Err(Overrun) ==> Valid() && (r.Err? ==> file.file == old(file.file))
      ensures r == Err(BadFile) <==> !file.canWrite
      ensures r == Err(NoSpace) ==> Exhausted(file.alloc.recent, file.alloc.bitmap.entries)
      ensures r == Err(Overrun) ==>
                !Pieced(old(file.alloc.lists), file.place.first) || !Listable(Runs(old(file.Superseded(buf, offset))))
      ensures r.Ok? && buf != [] ==> LogGrows(old(paths), paths, moved, old(used), old(logs.currBlock),
                                              old(logs.currOffset))
    {
      if !file.canWrite { return Err(BadFile); }
      if |buf| == 0 { return Ok(0); }
      r := WriteSome(buf, offset, moved);
    }

    method WriteSome(buf: seq<Byte>, offset: nat, moved: bool) returns (r: Result<nat>)
      requires Valid() && buf != []
      modifies this, file, logs, file.alloc, file.alloc.bitmap
      ensures r.Ok? ==> r.value == |buf| && file.file == BF.Write(old(file.file), BF.Update(offset, buf))
      ensures r != Err(Overrun) ==> Valid() && (r.Err? ==> file.file == old(file.file))
      ensures r != Err(BadFile) && (r == Err(NoSpace) ==> Exhausted(file.alloc.recent, file.alloc.bitmap.entries))
      ensures r == Err(Overrun) ==>
                !Pieced(old(file.alloc.lists), file.place.first) || !Listable(Runs(old(file.Superseded(buf, offset))))
      ensures r.Ok? ==> LogGrows(old(paths), paths, moved, old(used), old(logs.currBlock), old(logs.currOffset))
    {
      var begin, end := offset / BLOCK_SIZE, offset + |buf|;
      var n := NumBlocks(Span(offset, end));
      var lidxs;
      r, lidxs := TakeFillable(n);
      if r.Err? { return; }
      r := WriteTo(buf, offset, lidxs, begin, n, end, moved);
    }

    /** Data blocks that can be filled. */
    method TakeFillable(n: nat) returns (r: Result<nat>, lidxs: seq<nat>)
      requires Valid() && n > 0
      modifies file.alloc, file.alloc.bitmap
      ensures Valid() && r != Err(BadFile)
      ensures r == Err(NoSpace) ==> Exhausted(file.alloc.recent, file.alloc.bitmap.entries)
      ensures r == Err(Overrun) ==> !Pieced(old(file.alloc.lists), file.place.first)
      ensures r.Ok? ==> Owned(file.alloc.lists, file.alloc.bitmap.entries, file.txs, lidxs, n)
      ensures r.Ok? ==> DataApart(lidxs, n, logs.mem, used) && Fillable(Addr(file.place), lidxs, n)
    {
      var ok;
      ok, lidxs := TakeData(n);
      r := Ok(n);
      if !ok {
        r := Err(NoSpace);
      } else if !Fillable(Addr(file.place), lidxs, n) {
        NotFillable(file.alloc.lists, file.alloc.bitmap.entries, file.txs, file.place, lidxs, n);
        r := Err(Overrun);
      }
    }

    /** Fills the destination, appends the log entries, commits and recycles. */
    method WriteTo(buf: seq<Byte>, offset: nat, lidxs: seq<nat>, begin: nat, n: nat, end: nat, moved: bool)
      returns (r: Result<nat>)
      requires Valid() && buf != [] && begin == offset / BLOCK_SIZE && end == offset + |buf|
      requires n == NumBlocks(Span(offset, end)) > 0 && Fillable(Addr(file.place), lidxs, n)
      requires Owned(file.alloc.lists, file.alloc.bitmap.entries, file.txs, lidxs, n)
      requires DataApart(lidxs, n, logs.mem, used)
      modifies this, file, logs, file.alloc, file.alloc.bitmap
      ensures r.Ok? ==> r.value == |buf| && file.file == BF.Write(old(file.file), BF.Update(offset, buf))
      ensures r != Err(Overrun) ==> Valid() && (r.Err? ==> file.file == old(file.file))
      ensures r != Err(BadFile) && (r == Err(NoSpace) ==> Exhausted(file.alloc.recent, file.alloc.bitmap.entries))
      ensures r == Err(Overrun) ==> !Listable(Runs(Image(old(file.txs), begin, n)))
      ensures r.Ok? ==> LogGrows(old(paths), paths, moved, old(used), old(logs.currBlock), old(logs.currOffset))
    {
      var entry := Prepare(end, Fits(Inline(n, begin, lidxs[0])), SizeOf(file.txs));
      var ram', single := file.Fill(buf, offset, lidxs, n);
      var ok, room;
      ghost var nodes;
      ok, room, nodes := TakeLog(entry, begin, n, lidxs, moved);
      if !ok { return Err(NoSpace); }
      ok := CommitLogged(lidxs, begin, n, ram', end, room, single, nodes, BF.Update(offset, buf));
      r := if ok then Ok(|buf|) else Err(Overrun);
    }

    /** Commits the filled blocks and the log entries, and recycles what was
        superseded. */
    method CommitLogged(lidxs: seq<nat>, begin: nat, n: nat, ram': Ram, end: nat, room: nat, single: bool,
                        ghost nodes: seq<L.Node>, ghost u: BF.Update)
      returns (ok: bool)
      requires Valid() && n > 0 && room > 0 && (single ==> n == 1)
      requires Owned(file.alloc.lists, file.alloc.bitmap.entries, file.txs, lidxs, n)
      requires DataApart(lidxs, n, logs.mem, used)
      requires u.data != [] && end == u.offset + |u.data|
      requires begin * BLOCK_SIZE <= u.offset && begin + n == BlocksFor(end)
      requires Installed(file.ram, ram', Addr(file.place), lidxs, n,
                         Pages(BF.Write(file.file, u), begin * BLOCK_SIZE, n))
      requires Spelled(logs.mem, used, Written(file.txs, room, begin, n, lidxs, end), nodes, logs.currBlock,
                       L.StartOf(logs.currBlock, logs.currOffset))
      modifies this, file, file.alloc
      ensures ok <==> Listable(Runs(Image(old(file.txs), begin, n)))
      ensures ok ==> Valid() && file.file == BF.Write(old(file.file), u) && paths == old(paths) + [nodes]
    {
      ghost var lists0, txs0, entries := file.alloc.lists, file.txs, file.alloc.bitmap.entries;
      ghost var tx := Written(txs0, room, begin, n, lidxs, end);
      ok := file.Commit(lidxs, begin, n, ram', end, room, single, u);
      if ok {
        WrittenApart(lists0, file.alloc.lists, entries, txs0, room, lidxs, begin, n, end, logs.mem, used,
                     logs.currBlock, logs.currOffset);
        SpelledMore(logs.mem, used, txs0, paths, logs.currBlock, L.StartOf(logs.currBlock, logs.currOffset), tx, nodes);
        paths := paths + [nodes];
      }
    }
  }

  ghost function TakenBlocks(ok: bool, nodes: seq<L.Node>, curr: nat): set<nat>
  {
    (if ok then BlocksOf(nodes) else {}) + (if curr == 0 then {} else {curr})
  }

  lemma MoreTakeable(was: L.Was, l: seq<seq<nat>>, e: seq<Word>, mem: L.Mem, nodes: seq<L.Node>, es: seq<LogEntry>,
                     ok: bool, n: nat, curr: nat, at: nat)
    requires |was.lists| == |l| == CHUNK && L.Advances(was, l, e, curr, at) && (was.block == 0 ==> was.at >= L.WORDS)
    requires curr != 0 ==> FreeCount(l, e, curr) == 0
    requires ok ==> L.ChainAt(mem, nodes, es) && L.AllMine(was.lists, was.entries, nodes, was.block, was.at)
    requires ok ==> forall i | 0 <= i < |nodes| :: FreeCount(l, e, nodes[i].block) == 0
    ensures forall b | b in TakenBlocks(ok, nodes, curr) ::
              Takeable(was.lists, was.entries, was.block, b) && FreeCount(l, e, b) == 0
  {
    forall b | b in TakenBlocks(ok, nodes, curr)
      ensures Takeable(was.lists, was.entries, was.block, b) && FreeCount(l, e, b) == 0
    {
      if ok && b in BlocksOf(nodes) {
        var i :| 0 <= i < |nodes| && nodes[i].block == b;
        assert L.Mine(was.lists, was.entries, nodes[i], was.block, was.at);
        assert L.EntryAt(mem, nodes[i], es[i], L.NextOf(nodes, i));
      }
    }
  }

  lemma OwnedAllShrinks(l0: seq<seq<nat>>, e0: seq<Word>, l: seq<seq<nat>>, e: seq<Word>, txs: seq<Tx>,
                        lidxs: seq<nat>, n: nat)
    requires L.NoneFreed(l0, e0, l, e) && HistoryOk(txs) && Owned(l0, e0, txs, lidxs, n)
    ensures Owned(l, e, txs, lidxs, n)
  {
    forall k | 0 <= k < n ensures OwnedAt(l, e, txs, Nth(lidxs, k)) {
      OwnedShrinks(l0, e0, l, e, txs, Nth(lidxs, k));
    }
  }
}
