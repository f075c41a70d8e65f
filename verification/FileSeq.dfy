/** One thread at a time, `pwrite` and `pread` behave like writes to and reads
    from a byte array. */
module FileSeq {
  import opened Layout
  import opened Entry
  import opened Alloc
  import opened Replay
  import opened FileData
  import opened FileMem
  import opened CommitEntry
  import opened MemTable
  import BF = ByteFile

  /* The invariant: committed transactions, blocks and free blocks represent a
     byte array. */

  /** Every free block is free once. */
  ghost predicate Frees(lists: seq<seq<nat>>, entries: seq<Word>)
    requires |lists| == CHUNK
  {
    forall x: nat :: FreeCount(lists, entries, x) <= 1 && (FreeCount(lists, entries, x) == 1 ==> x != 0)
  }

  /** Mapped blocks are not free and are mapped once. */
  ghost predicate LiveOk(lists: seq<seq<nat>>, entries: seq<Word>, txs: seq<Tx>)
    requires |lists| == CHUNK && HistoryOk(txs)
  {
    && (forall v: nat :: Lookup(txs, v) != 0 ==> FreeCount(lists, entries, Lookup(txs, v)) == 0)
    && (forall v: nat, w: nat :: Lookup(txs, v) != 0 && Lookup(txs, v) == Lookup(txs, w) ==> v == w)
  }

  /** Block by block the mapped blocks hold the file, and zeros past its end. */
  ghost predicate Represents(ram: Ram, addr: nat -> nat, txs: seq<Tx>, f: BF.File)
    requires HistoryOk(txs)
  {
    |f| == SizeOf(txs) && forall v: nat :: BlockOf(ram, addr, Lookup(txs, v)) == BF.Page(f, v)
  }

  ghost predicate Shape(lists: seq<seq<nat>>, entries: seq<Word>, ram: Ram, addr: nat -> nat, txs: seq<Tx>, f: BF.File)
  {
    && |lists| == CHUNK && HistoryOk(txs)
    && Frees(lists, entries) && LiveOk(lists, entries, txs) && Represents(ram, addr, txs, f)
  }

  /* Taking new blocks. */

  /** How often `x` is in the first `i` chunks of an extent of `n` blocks. */
  function HeldIn(lidxs: seq<nat>, n: nat, i: nat, x: nat): nat
    requires i <= |lidxs| && CHUNK * i < n + CHUNK
  {
    if i == 0 then 0 else HeldIn(lidxs, n, i - 1, x) + In(lidxs[i - 1], Min(n - CHUNK * (i - 1), CHUNK), x)
  }

  ghost predicate Took(l0: seq<seq<nat>>, e0: seq<Word>, l: seq<seq<nat>>, e: seq<Word>, lidxs: seq<nat>, n: nat)
  {
    && |l0| == |l| == CHUNK && CHUNK * |lidxs| < n + CHUNK
    && forall x: nat :: FreeCount(l, e, x) + HeldIn(lidxs, n, |lidxs|, x) == FreeCount(l0, e0, x)
  }

  lemma {:induction false} HeldPrefix(lidxs: seq<nat>, more: seq<nat>, n: nat, i: nat, x: nat)
    requires i <= |lidxs| && CHUNK * i < n + CHUNK
    ensures HeldIn(lidxs + more, n, i, x) == HeldIn(lidxs, n, i, x)
  {
    if i > 0 { HeldPrefix(lidxs, more, n, i - 1, x); }
  }

  lemma TookMore(l0: seq<seq<nat>>, e0: seq<Word>, l: seq<seq<nat>>, e: seq<Word>, l': seq<seq<nat>>, e': seq<Word>,
                 lidxs: seq<nat>, n: nat, b: nat)
    requires Took(l0, e0, l, e, lidxs, n) && CHUNK * |lidxs| < n
    requires Conserved(l, e, l', e', Some(b), Min(n - CHUNK * |lidxs|, CHUNK))
    ensures Took(l0, e0, l', e', lidxs + [b], n)
  {
    forall x: nat ensures FreeCount(l', e', x) + HeldIn(lidxs + [b], n, |lidxs| + 1, x) == FreeCount(l0, e0, x) {
      HeldPrefix(lidxs, [b], n, |lidxs|, x);
    }
  }

  lemma {:induction false} HeldAtLeast(lidxs: seq<nat>, n: nat, i: nat, k: nat)
    requires i <= |lidxs| && CHUNK * i < n + CHUNK && k < n && k / CHUNK < i
    ensures HeldIn(lidxs, n, i, ChunkBlock(lidxs, k)) >= 1
  {
    if k / CHUNK < i - 1 { HeldAtLeast(lidxs, n, i - 1, k); }
  }

  lemma {:induction false} HeldTwice(lidxs: seq<nat>, n: nat, i: nat, j: nat, k: nat)
    requires i <= |lidxs| && CHUNK * i < n + CHUNK && j < k < n && k / CHUNK < i
    requires ChunkBlock(lidxs, j) == ChunkBlock(lidxs, k)
    ensures HeldIn(lidxs, n, i, ChunkBlock(lidxs, k)) >= 2
  {
    if k / CHUNK < i - 1 {
      HeldTwice(lidxs, n, i - 1, j, k);
    } else {
      assert j / CHUNK < k / CHUNK;
      HeldAtLeast(lidxs, n, i - 1, j);
    }
  }

  /** The lists hold a run for every chunk of `n` blocks. */
  ghost predicate Enough(lists: seq<seq<nat>>, n: nat)
    requires |lists| == CHUNK
    decreases n
  {
    n == 0 || (var m := Min(n, CHUNK); lists[m - 1] != [] && Enough(Pop(lists, m), n - m))
  }

  /** Those runs: the one on top of its list each time. */
  ghost function Tops(lists: seq<seq<nat>>, n: nat): (lidxs: seq<nat>)
    requires |lists| == CHUNK && Enough(lists, n)
    ensures |lidxs| == ChunksFor(n)
    decreases n
  {
    if n == 0 then [] else var m := Min(n, CHUNK); [LastOf(lists, m)] + Tops(Pop(lists, m), n - m)
  }

  /** The lists without them. */
  ghost function Rest(lists: seq<seq<nat>>, n: nat): (lists': seq<seq<nat>>)
    requires |lists| == CHUNK && Enough(lists, n)
    ensures |lists'| == CHUNK
    decreases n
  {
    if n == 0 then lists else var m := Min(n, CHUNK); Rest(Pop(lists, m), n - m)
  }

  /** All but `rest` of `n` blocks have been taken from the lists. */
  ghost predicate Popped(lists0: seq<seq<nat>>, n: nat, lists: seq<seq<nat>>, rest: nat, lidxs: seq<nat>)
    requires |lists0| == CHUNK && Enough(lists0, n)
  {
    && |lists| == CHUNK && Enough(lists, rest)
    && lidxs + Tops(lists, rest) == Tops(lists0, n) && Rest(lists, rest) == Rest(lists0, n)
  }

  lemma {:induction false} PopMore(lists0: seq<seq<nat>>, n: nat, lists: seq<seq<nat>>, rest: nat, lidxs: seq<nat>)
    requires |lists0| == CHUNK && Enough(lists0, n) && Popped(lists0, n, lists, rest, lidxs) && rest > 0
    ensures var m := Min(rest, CHUNK);
            lists[m - 1] != [] && Popped(lists0, n, Pop(lists, m), rest - m, lidxs + [LastOf(lists, m)])
  {
    var m := Min(rest, CHUNK);
    var top, tops := LastOf(lists, m), Tops(Pop(lists, m), rest - m);
    assert Tops(lists, rest) == [top] + tops;
    assert lidxs + ([top] + tops) == lidxs + [top] + tops;
  }

  /** The extent's blocks are not free, not mapped, and all different. */
  ghost predicate Owned(lists: seq<seq<nat>>, entries: seq<Word>, txs: seq<Tx>, lidxs: seq<nat>, n: nat)
    requires |lists| == CHUNK && HistoryOk(txs)
  {
    && |lidxs| == ChunksFor(n) && Different(lidxs, n)
    && (forall k | 0 <= k < n :: OwnedAt(lists, entries, txs, Nth(lidxs, k)))
  }

  ghost predicate OwnedAt(lists: seq<seq<nat>>, entries: seq<Word>, txs: seq<Tx>, x: nat)
    requires |lists| == CHUNK && HistoryOk(txs)
  {
    x != 0 && FreeCount(lists, entries, x) == 0 && forall v: nat :: Lookup(txs, v) != x
  }

  lemma TakeStep(l0: seq<seq<nat>>, e0: seq<Word>, l: seq<seq<nat>>, e: seq<Word>, ram: Ram, addr: nat -> nat,
                 txs: seq<Tx>, f: BF.File, lidxs: seq<nat>, n: nat)
    requires Shape(l0, e0, ram, addr, txs, f) && Took(l0, e0, l, e, lidxs, n)
    ensures Shape(l, e, ram, addr, txs, f)
    ensures |lidxs| == ChunksFor(n) ==> Owned(l, e, txs, lidxs, n)
  {
    forall x: nat
      ensures FreeCount(l, e, x) <= 1 && (FreeCount(l, e, x) == 1 ==> x != 0)
      ensures FreeCount(l0, e0, x) == 0 ==> FreeCount(l, e, x) == 0
    {
      assert FreeCount(l, e, x) + HeldIn(lidxs, n, |lidxs|, x) == FreeCount(l0, e0, x) <= 1;
    }
    if |lidxs| == ChunksFor(n) {
      forall k | 0 <= k < n ensures OwnedAt(l, e, txs, Nth(lidxs, k)) {
        TakenBlock(l0, e0, l, e, txs, lidxs, n, k);
      }
      forall j, k | 0 <= j < k < n ensures Nth(lidxs, j) != Nth(lidxs, k) {
        ChunkIndex(j, n);
        ChunkIndex(k, n);
        var x := Nth(lidxs, k);
        assert FreeCount(l0, e0, x) <= 1 && HeldIn(lidxs, n, |lidxs|, x) <= 1;
        if Nth(lidxs, j) == x { HeldTwice(lidxs, n, |lidxs|, j, k); }
      }
    }
  }

  lemma TakenBlock(l0: seq<seq<nat>>, e0: seq<Word>, l: seq<seq<nat>>, e: seq<Word>, txs: seq<Tx>, lidxs: seq<nat>,
                   n: nat, k: nat)
    requires |l0| == CHUNK && HistoryOk(txs) && Frees(l0, e0) && LiveOk(l0, e0, txs)
    requires Took(l0, e0, l, e, lidxs, n) && |lidxs| == ChunksFor(n) && k < n
    ensures OwnedAt(l, e, txs, Nth(lidxs, k))
  {
    ChunkIndex(k, n);
    var x := Nth(lidxs, k);
    HeldAtLeast(lidxs, n, |lidxs|, k);
    assert FreeCount(l, e, x) + HeldIn(lidxs, n, |lidxs|, x) == FreeCount(l0, e0, x) <= 1;
    assert FreeCount(l0, e0, x) == 1 ==> x != 0;
    forall v: nat ensures Lookup(txs, v) != x {
      assert Lookup(txs, v) != 0 ==> FreeCount(l0, e0, Lookup(txs, v)) == 0;
    }
  }

  /* Committing. */

  /** What a write does to file and mapping. */
  ghost predicate Maps(txs: seq<Tx>, tx: Tx, lidxs: seq<nat>, begin: nat, n: nat)
    requires HistoryOk(txs) && TxOk(tx)
  {
    forall v: nat :: Lookup(txs + [tx], v) == if Within(begin, n, v) then Nth(lidxs, v - begin) else Lookup(txs, v)
  }

  /** The pages outside the extent stay, those inside are in `bytes`. */
  ghost predicate Rewrites(f: BF.File, f': BF.File, begin: nat, n: nat, bytes: seq<Byte>)
  {
    && |bytes| == n * BLOCK_SIZE
    && (forall v: nat | !Within(begin, n, v) :: BF.Page(f', v) == BF.Page(f, v))
    && (forall k | 0 <= k < n :: PageIn(f', begin, k, bytes))
  }

  ghost predicate PageIn(f: BF.File, begin: nat, k: nat, bytes: seq<Byte>)
  {
    (k + 1) * BLOCK_SIZE <= |bytes| && BF.Page(f, begin + k) == bytes[k * BLOCK_SIZE..(k + 1) * BLOCK_SIZE]
  }

  lemma {:induction false} CommitStep(lists: seq<seq<nat>>, entries: seq<Word>, ram: Ram, ram': Ram, addr: nat -> nat,
                                      txs: seq<Tx>, tx: Tx, f: BF.File, f': BF.File, lidxs: seq<nat>, begin: nat,
                                      n: nat, bytes: seq<Byte>)
    requires Shape(lists, entries, ram, addr, txs, f) && Owned(lists, entries, txs, lidxs, n)
    requires Installed(ram, ram', addr, lidxs, n, bytes) && Rewrites(f, f', begin, n, bytes)
    requires TxOk(tx) && Maps(txs, tx, lidxs, begin, n) && SizeOf(txs + [tx]) == |f'|
    ensures Shape(lists, entries, ram', addr, txs + [tx], f')
  {
    var txs' := txs + [tx];
    forall v: nat
      ensures BlockOf(ram', addr, Lookup(txs', v)) == BF.Page(f', v)
      ensures Lookup(txs', v) != 0 ==> FreeCount(lists, entries, Lookup(txs', v)) == 0
    {
      CommitBlock(lists, entries, ram, ram', addr, txs, tx, f, f', lidxs, begin, n, bytes, v);
    }
    forall v: nat, w: nat | Lookup(txs', v) != 0 && Lookup(txs', v) == Lookup(txs', w) ensures v == w {
      assert Within(begin, n, v) ==> OwnedAt(lists, entries, txs, Nth(lidxs, v - begin));
      assert Within(begin, n, w) ==> OwnedAt(lists, entries, txs, Nth(lidxs, w - begin));
      assert Within(begin, n, v) ==> Lookup(txs', v) == Nth(lidxs, v - begin);
      assert Within(begin, n, w) ==> Lookup(txs', w) == Nth(lidxs, w - begin);
    }
  }

  lemma {:induction false} CommitBlock(lists: seq<seq<nat>>, entries: seq<Word>, ram: Ram, ram': Ram, addr: nat -> nat,
                                       txs: seq<Tx>, tx: Tx, f: BF.File, f': BF.File, lidxs: seq<nat>, begin: nat,
                                       n: nat, bytes: seq<Byte>, v: nat)
    requires Shape(lists, entries, ram, addr, txs, f) && Owned(lists, entries, txs, lidxs, n)
    requires Installed(ram, ram', addr, lidxs, n, bytes) && Rewrites(f, f', begin, n, bytes)
    requires TxOk(tx) && Maps(txs, tx, lidxs, begin, n)
    ensures HistoryOk(txs + [tx]) && BlockOf(ram', addr, Lookup(txs + [tx], v)) == BF.Page(f', v)
    ensures var l := Lookup(txs + [tx], v); l != 0 ==> FreeCount(lists, entries, l) == 0
  {
    var l := Lookup(txs + [tx], v);
    if Within(begin, n, v) {
      var k := v - begin;
      assert l == Nth(lidxs, k) && OwnedAt(lists, entries, txs, Nth(lidxs, k));
      assert HoldsPart(ram', addr, Nth(lidxs, k), bytes, k) && PageIn(f', begin, k, bytes);
    } else {
      assert l == Lookup(txs, v) && BlockOf(ram, addr, l) == BF.Page(f, v);
      LiveElsewhere(lists, entries, txs, lidxs, n, v);
      assert Elsewhere(lidxs, n, l);
    }
  }

  /** What the file is mapped to, holes included, is not in the extent. */
  lemma LiveElsewhere(lists: seq<seq<nat>>, entries: seq<Word>, txs: seq<Tx>, lidxs: seq<nat>, n: nat, v: nat)
    requires |lists| == CHUNK && HistoryOk(txs) && Owned(lists, entries, txs, lidxs, n)
    ensures Elsewhere(lidxs, n, Lookup(txs, v))
  {
    forall k | 0 <= k < n ensures Nth(lidxs, k) != Lookup(txs, v) {
      assert OwnedAt(lists, entries, txs, Nth(lidxs, k));
    }
  }

  /* Recycling. */

  /** The blocks that an extent is mapped to, 0 where it is not. */
  function Image(txs: seq<Tx>, begin: nat, n: nat): (image: seq<nat>)
    requires HistoryOk(txs)
    ensures |image| == n && forall k | 0 <= k < n :: image[k] == Lookup(txs, begin + k)
  {
    seq<nat>(n, k requires k >= 0 => Lookup(txs, begin + k))
  }

  ghost predicate Distinct(image: seq<nat>)
  {
    forall j, k | 0 <= j < k < |image| && image[j] != 0 :: image[j] != image[k]
  }

  /** A nonzero entry of an image without repetitions occurs once. */
  lemma {:induction false} OccursOnce(image: seq<nat>, x: nat)
    requires Distinct(image)
    ensures Occurs(NonZero(image), x) == if x != 0 && x in image then 1 else 0
  {
    if image != [] {
      var init, last := image[..|image| - 1], image[|image| - 1];
      OccursOnce(init, x);
      assert image == init + [last];
      if last != 0 {
        var xs := NonZero(image);
        assert xs[..|xs| - 1] == NonZero(init);
      }
    }
  }

  ghost predicate Returned(lists: seq<seq<nat>>, lists': seq<seq<nat>>, image: seq<nat>)
  {
    && |lists| == |lists'| == CHUNK
    && forall x: nat :: ListsCount(lists', CHUNK, x) == ListsCount(lists, CHUNK, x) + Occurs(NonZero(image), x)
  }

  /** The superseded blocks become free, and no block becomes free that is mapped. */
  lemma RecycleStep(lists: seq<seq<nat>>, lists': seq<seq<nat>>, entries: seq<Word>, ram: Ram, ram': Ram,
                    addr: nat -> nat, txs: seq<Tx>, tx: Tx, f: BF.File, f': BF.File, lidxs: seq<nat>, begin: nat,
                    n: nat)
    requires Shape(lists, entries, ram, addr, txs, f) && Owned(lists, entries, txs, lidxs, n)
    requires TxOk(tx) && Maps(txs, tx, lidxs, begin, n) && Shape(lists, entries, ram', addr, txs + [tx], f')
    requires Returned(lists, lists', Image(txs, begin, n))
    ensures Shape(lists', entries, ram', addr, txs + [tx], f')
  {
    var image, txs' := Image(txs, begin, n), txs + [tx];
    ImageDistinct(lists, entries, txs, begin, n);
    forall x: nat
      ensures FreeCount(lists', entries, x) == FreeCount(lists, entries, x) + if x != 0 && x in image then 1 else 0
    {
      OccursOnce(image, x);
    }
    forall x: nat ensures FreeCount(lists', entries, x) <= 1 && (FreeCount(lists', entries, x) == 1 ==> x != 0) {
      assert FreeCount(lists, entries, x) <= 1;
      if x != 0 && x in image {
        var k :| 0 <= k < n && image[k] == x;
        assert Lookup(txs, begin + k) == x;
      }
    }
    forall v: nat ensures Lookup(txs', v) != 0 ==> FreeCount(lists', entries, Lookup(txs', v)) == 0 {
      NotSuperseded(lists, entries, txs, tx, lidxs, begin, n, v);
    }
  }

  lemma ImageDistinct(lists: seq<seq<nat>>, entries: seq<Word>, txs: seq<Tx>, begin: nat, n: nat)
    requires |lists| == CHUNK && HistoryOk(txs) && LiveOk(lists, entries, txs)
    ensures Distinct(Image(txs, begin, n))
  {
    var image := Image(txs, begin, n);
    forall j, k | 0 <= j < k < |image| && image[j] != 0 ensures image[j] != image[k] {
      assert image[j] == Lookup(txs, begin + j) && image[k] == Lookup(txs, begin + k);
    }
  }

  lemma {:induction false} NotSuperseded(lists: seq<seq<nat>>, entries: seq<Word>, txs: seq<Tx>, tx: Tx,
                                         lidxs: seq<nat>, begin: nat, n: nat, v: nat)
    requires |lists| == CHUNK && HistoryOk(txs) && LiveOk(lists, entries, txs)
    requires Owned(lists, entries, txs, lidxs, n) && TxOk(tx) && Maps(txs, tx, lidxs, begin, n)
    ensures HistoryOk(txs + [tx]) && (Lookup(txs + [tx], v) != 0 ==> Lookup(txs + [tx], v) !in Image(txs, begin, n))
  {
    var l, image := Lookup(txs + [tx], v), Image(txs, begin, n);
    if l != 0 {
      if Within(begin, n, v) { assert OwnedAt(lists, entries, txs, Nth(lidxs, v - begin)); }
      forall k | 0 <= k < n ensures image[k] != l { assert image[k] == Lookup(txs, begin + k); }
    }
  }

  /* The transaction. */

  /** The entry that is prepared maps the extent to its blocks and gives the file
      the size of the byte array. */
  lemma {:induction false} CommitMeaning(txs: seq<Tx>, room: nat, begin: nat, n: nat, lidxs: seq<nat>, end: nat)
    requires HistoryOk(txs) && room > 0 && n > 0 && |lidxs| == ChunksFor(n) && begin + n == BlocksFor(end)
    ensures var tx := TxOf(Prepare(end, Fits(Inline(n, begin, lidxs[0])), SizeOf(txs)), room, begin, n, lidxs);
            TxOk(tx) && Maps(txs, tx, lidxs, begin, n) && SizeOf(txs + [tx]) == Max(SizeOf(txs), end)
  {
    var size, fits := SizeOf(txs), Fits(Inline(n, begin, lidxs[0]));
    var tx := TxOf(Prepare(end, fits, size), room, begin, n, lidxs);
    assert After(end, fits, [size]) == Prepare(end, fits, size);
    FileSizeLaw(end, begin, n, fits, [size], size, room, lidxs, 0, 0);
    LookupAppend(txs, tx, 0);
    forall v: nat
      ensures Lookup(txs + [tx], v) == if Within(begin, n, v) then Nth(lidxs, v - begin) else Lookup(txs, v)
    {
      FileSizeLaw(end, begin, n, fits, [size], size, room, lidxs, v, Lookup(txs, v));
      LookupAppend(txs, tx, v);
    }
  }

  /** The transaction that a write commits. */
  function Written(txs: seq<Tx>, room: nat, begin: nat, n: nat, lidxs: seq<nat>, end: nat): Tx
    requires HistoryOk(txs) && room > 0 && n > 0 && |lidxs| == ChunksFor(n)
  {
    TxOf(Prepare(end, Fits(Inline(n, begin, lidxs[0])), SizeOf(txs)), room, begin, n, lidxs)
  }

  /** Writing, committing and recycling together. */
  lemma {:induction false} CommitAll(lists: seq<seq<nat>>, lists': seq<seq<nat>>, entries: seq<Word>, ram: Ram,
                                     ram': Ram, addr: nat -> nat, txs: seq<Tx>, f: BF.File, u: BF.Update,
                                     lidxs: seq<nat>, begin: nat, n: nat, end: nat, room: nat)
    requires Shape(lists, entries, ram, addr, txs, f) && Owned(lists, entries, txs, lidxs, n) && n > 0 && room > 0
    requires u.data != [] && end == u.offset + |u.data| && begin * BLOCK_SIZE <= u.offset && begin + n == BlocksFor(end)
    requires Installed(ram, ram', addr, lidxs, n, Pages(BF.Write(f, u), begin * BLOCK_SIZE, n))
    requires Returned(lists, lists', Image(txs, begin, n))
    ensures Shape(lists', entries, ram', addr, txs + [Written(txs, room, begin, n, lidxs, end)], BF.Write(f, u))
  {
    var tx := Written(txs, room, begin, n, lidxs, end);
    var f', bytes := BF.Write(f, u), Pages(BF.Write(f, u), begin * BLOCK_SIZE, n);
    CommitMeaning(txs, room, begin, n, lidxs, end);
    WindowRewrites(f, u, begin, n);
    CommitStep(lists, entries, ram, ram', addr, txs, tx, f, f', lidxs, begin, n, bytes);
    RecycleStep(lists, lists', entries, ram, ram', addr, txs, tx, f, f', lidxs, begin, n);
  }

  /* Pages and windows. */

  lemma WindowRewrites(f: BF.File, u: BF.Update, begin: nat, n: nat)
    requires u.data != [] && begin * BLOCK_SIZE <= u.offset && u.offset + |u.data| <= (begin + n) * BLOCK_SIZE
    ensures Rewrites(f, BF.Write(f, u), begin, n, Pages(BF.Write(f, u), begin * BLOCK_SIZE, n))
  {
    var f' := BF.Write(f, u);
    var bytes := Pages(f', begin * BLOCK_SIZE, n);
    forall v: nat | !Within(begin, n, v) ensures BF.Page(f', v) == BF.Page(f, v) {
      forall i | 0 <= i < BLOCK_SIZE ensures BF.Page(f', v)[i] == BF.Page(f, v)[i] {
        BF.WriteAt(f, u, v * BLOCK_SIZE + i);
      }
    }
    forall k | 0 <= k < n ensures PageIn(f', begin, k, bytes) {
      var page, part := BF.Page(f', begin + k), bytes[k * BLOCK_SIZE..(k + 1) * BLOCK_SIZE];
      forall i | 0 <= i < BLOCK_SIZE ensures page[i] == part[i] {
        assert part[i] == bytes[k * BLOCK_SIZE + i];
      }
    }
  }

  lemma AlignedWindow(f: BF.File, u: BF.Update, n: nat)
    requires u.data != [] && |u.data| == n * BLOCK_SIZE
    ensures u.data == Pages(BF.Write(f, u), u.offset, n)
  {
    forall p | 0 <= p < |u.data| ensures u.data[p]
        == Pages(BF.Write(f, u), u.offset, n)[p] { BF.WriteAt(f, u, u.offset + p); }
  }

  lemma PageIsWindow(f: BF.File, v: nat)
    ensures BF.Page(f, v) == Pages(f, v * BLOCK_SIZE, 1)
  {
    var page, win := BF.Page(f, v), Pages(f, v * BLOCK_SIZE, 1);
    forall i | 0 <= i < BLOCK_SIZE ensures page[i] == win[i] {}
  }

  lemma SingleWindow(ram: Ram, src: nat, f: BF.File, u: BF.Update, v: nat, local: nat)
    requires u.data != [] && u.offset == v * BLOCK_SIZE + local && local + |u.data| <= BLOCK_SIZE
    requires Slice(ram, src, BLOCK_SIZE) == BF.Page(f, v)
    ensures SingleBytes(ram, src, local, u.data) == Pages(BF.Write(f, u), v * BLOCK_SIZE, 1)
  {
    var bytes, over := SingleBytes(ram, src, local, u.data), BF.Overlay(BF.Page(f, v), local, u.data);
    forall i | 0 <= i < BLOCK_SIZE ensures bytes[i] == over[i] {
      assert Slice(ram, src, BLOCK_SIZE)[i] == ram(src + i);
    }
    BF.WriteSamePage(f, v, local, u.data);
    PageIsWindow(BF.Write(f, u), v);
  }

  lemma MultiWindow(ram: Ram, first: nat, last: nat, f: BF.File, u: BF.Update, s: Span)
    requires s == Span(u.offset, u.offset + |u.data|) && SpanOk(s) && NumBlocks(s) > 0
    requires Slice(ram, first, BLOCK_SIZE) == BF.Page(f, Begin(s))
    requires Slice(ram, last, BLOCK_SIZE) == BF.Page(f, Begin(s) + NumBlocks(s) - 1)
    ensures MultiBytes(ram, s, u.data, first, last) == Pages(BF.Write(f, u), Begin(s) * BLOCK_SIZE, NumBlocks(s))
  {
    SpanFacts(s);
    LastFacts(s);
    var bytes, win := MultiBytes(ram, s, u.data, first, last),
        Pages(BF.Write(f, u), Begin(s) * BLOCK_SIZE, NumBlocks(s));
    forall p | 0 <= p < |bytes| ensures bytes[p] == win[p] {
      MultiByte(ram, first, last, f, u, s, p);
    }
  }

  lemma MultiByte(ram: Ram, first: nat, last: nat, f: BF.File, u: BF.Update, s: Span, p: nat)
    requires s == Span(u.offset, u.offset + |u.data|) && SpanOk(s) && NumBlocks(s) > 0
    requires Slice(ram, first, BLOCK_SIZE) == BF.Page(f, Begin(s))
    requires Slice(ram, last, BLOCK_SIZE) == BF.Page(f, Begin(s) + NumBlocks(s) - 1)
    requires p < |MultiBytes(ram, s, u.data, first, last)|
    ensures MultiBytes(ram, s, u.data, first, last)[p] == BF.At(BF.Write(f, u), Begin(s) * BLOCK_SIZE + p)
  {
    SpanFacts(s);
    LastFacts(s);
    BF.WriteAt(f, u, Begin(s) * BLOCK_SIZE + p);
    if p < Skip(s) {
      assert Slice(ram, first, BLOCK_SIZE)[p] == BF.Page(f, Begin(s))[p];
    } else if p >= Skip(s) + |u.data| {
      var q := p - (NumBlocks(s) - 1) * BLOCK_SIZE;
      assert Slice(ram, last, BLOCK_SIZE)[q] == BF.Page(f, Begin(s) + NumBlocks(s) - 1)[q];
    }
  }

  /* The file. */

  datatype Error = BadFile | NoSpace | Overrun
  datatype Result<T> = Ok(value: T) | Err(error: Error)

  /** `n` bytes of the file, zeros past its end. */
  function Bytes(f: BF.File, p: nat, n: nat): (s: seq<Byte>)
    ensures |s| == n
  {
    seq(n, i requires i >= 0 => BF.At(f, p + i))
  }

  /** Memory from `a` on shows `n` bytes of the file, from `p` on. */
  ghost predicate InRam(ram: Ram, a: nat, f: BF.File, p: nat, n: nat)
  {
    Slice(ram, a, n) == Bytes(f, p, n)
  }

  lemma {:induction false} MappedPage(ram: Ram, addr: nat -> nat, txs: seq<Tx>, f: BF.File, v: nat)
    requires HistoryOk(txs) && Represents(ram, addr, txs, f)
    ensures InRam(ram, addr(Lookup(txs, v)), f, v * BLOCK_SIZE, BLOCK_SIZE)
  {
    assert BlockOf(ram, addr, Lookup(txs, v)) == BF.Page(f, v);
    var page, bytes := BF.Page(f, v), Bytes(f, v * BLOCK_SIZE, BLOCK_SIZE);
    forall i | 0 <= i < BLOCK_SIZE ensures page[i] == bytes[i] {}
  }

  lemma InRamPart(ram: Ram, a: nat, f: BF.File, p: nat, n: nat, lo: nat, m: nat)
    requires InRam(ram, a, f, p, n) && lo + m <= n
    ensures InRam(ram, a + lo, f, p + lo, m)
  {
    var s, t := Slice(ram, a + lo, m), Bytes(f, p + lo, m);
    forall i | 0 <= i < m ensures s[i] == t[i] { assert Slice(ram, a, n)[lo + i] == Bytes(f, p, n)[lo + i]; }
  }

  lemma InRamJoin(ram: Ram, a: nat, f: BF.File, p: nat, n: nat, m: nat)
    requires InRam(ram, a, f, p, n) && InRam(ram, a + n, f, p + n, m)
    ensures InRam(ram, a, f, p, n + m)
  {
    var s, t := Slice(ram, a, n + m), Bytes(f, p, n + m);
    forall i | 0 <= i < n + m ensures s[i] == t[i] {
      if i < n { assert Slice(ram, a, n)[i] == Bytes(f, p, n)[i]; }
      else { assert Slice(ram, a + n, m)[i - n] == Bytes(f, p + n, m)[i - n]; }
    }
  }

  /** `buf` holds the file from `offset` on. */
  ghost predicate Copied(buf: seq<Byte>, f: BF.File, offset: nat) { buf == Bytes(f, offset, |buf|) }

  lemma CopyMore(buf: seq<Byte>, f: BF.File, offset: nat, ram: Ram, a: nat, n: nat)
    requires Copied(buf, f, offset) && InRam(ram, a, f, offset + |buf|, n)
    ensures Copied(buf + Slice(ram, a, n), f, offset)
  {
    assert Bytes(f, offset, |buf|) + Bytes(f, offset + |buf|, n) == Bytes(f, offset, |buf| + n);
  }

  /** One turn of the copy loop: a block at address `b` joins the bytes to be
      copied if it follows them in memory; otherwise those are copied first. */
  method JoinOrCopy(ram: Ram, a: nat, n: nat, buf: seq<Byte>, b: nat, ghost f: BF.File, ghost offset: nat,
                    ghost p: nat)
    returns (a': nat, n': nat, buf': seq<Byte>)
    requires Copied(buf, f, offset) && InRam(ram, a, f, offset + |buf|, n) && InRam(ram, b, f, p, BLOCK_SIZE)
    requires offset + |buf| + n == p
    ensures Copied(buf', f, offset) && InRam(ram, a', f, offset + |buf'|, n')
    ensures offset + |buf'| + n' == p + BLOCK_SIZE && offset + |buf'| <= p
  {
    if a + n == b {
      InRamJoin(ram, a, f, offset + |buf|, n, BLOCK_SIZE);
      a', n', buf' := a, n + BLOCK_SIZE, buf;
    } else {
      CopyMore(buf, f, offset, ram, a, n);
      a', n', buf' := b, BLOCK_SIZE, buf + Slice(ram, a, n);
    }
  }

  lemma ReadBytes(f: BF.File, offset: nat, count: nat)
    ensures BF.Read(f, offset, count) == if offset < |f| then Bytes(f, offset, Min(count, |f| - offset)) else []
  {
    if offset < |f| {
      var s, t := BF.Read(f, offset, count), Bytes(f, offset, Min(count, |f| - offset));
      assert |s| == |t|;
      forall i | 0 <= i < |s| ensures s[i] == t[i] { assert s[i] == f[offset + i]; }
    }
  }

  /** A write inside one block makes the destination what the file is to be there. */
  method FillInside(ram: Ram, d: Dest, buf: seq<Byte>, offset: nat, src: nat, ghost f: BF.File) returns (ram': Ram)
    requires buf != [] && offset / BLOCK_SIZE == (offset + |buf| - 1) / BLOCK_SIZE && DestOk(d) && d.n == 1
    requires Clear(d, src) && Slice(ram, src, BLOCK_SIZE) == BF.Page(f, offset / BLOCK_SIZE)
    ensures Holds(ram', d, Pages(BF.Write(f, BF.Update(offset, buf)), offset / BLOCK_SIZE * BLOCK_SIZE, 1))
    ensures Outside(ram, ram', d)
  {
    var v := offset / BLOCK_SIZE;
    var local := offset - v * BLOCK_SIZE;
    ram' := FillSingle(ram, d, local, buf, src);
    SingleWindow(ram, src, f, BF.Update(offset, buf), v, local);
  }

  /** So does a write of several blocks. */
  method FillSpan(ram: Ram, d: Dest, buf: seq<Byte>, s: Span, first: nat, last: nat, ghost f: BF.File)
    returns (ram': Ram)
    requires SpanOk(s) && s.end == s.offset + |buf| && DestOk(d) && d.n == NumBlocks(s) > 0
    requires Clear(d, first) && Slice(ram, first, BLOCK_SIZE) == BF.Page(f, Begin(s))
    requires Clear(d, last) && Slice(ram, last, BLOCK_SIZE) == BF.Page(f, Begin(s) + d.n - 1)
    ensures Holds(ram', d, Pages(BF.Write(f, BF.Update(s.offset, buf)), Begin(s) * BLOCK_SIZE, d.n))
    ensures Outside(ram, ram', d)
  {
    ram' := FillMulti(ram, d, s, buf, first, last);
    MultiWindow(ram, first, last, f, BF.Update(s.offset, buf), s);
  }

  /** The three kinds of transactions. `first` and `last` are the addresses of the
      blocks that the write's first and last block replace. */
  method FillAny(ram: Ram, d: Dest, buf: seq<Byte>, offset: nat, first: nat, last: nat, ghost f: BF.File)
    returns (ram': Ram, single: bool)
    requires buf != [] && DestOk(d) && d.n == NumBlocks(Span(offset, offset + |buf|)) > 0
    requires Clear(d, first) && Slice(ram, first, BLOCK_SIZE) == BF.Page(f, offset / BLOCK_SIZE)
    requires Clear(d, last) && Slice(ram, last, BLOCK_SIZE) == BF.Page(f, offset / BLOCK_SIZE + d.n - 1)
    ensures Holds(ram', d, Pages(BF.Write(f, BF.Update(offset, buf)), offset / BLOCK_SIZE * BLOCK_SIZE, d.n))
    ensures Outside(ram, ram', d) && (single ==> d.n == 1)
  {
    single := false;
    if |buf| % BLOCK_SIZE == 0 && offset % BLOCK_SIZE == 0 {
      ram' := FillAligned(ram, d, buf);
      AlignedWindow(f, BF.Update(offset, buf), d.n);
      assert offset / BLOCK_SIZE * BLOCK_SIZE == offset;
    } else if offset / BLOCK_SIZE == (offset + |buf| - 1) / BLOCK_SIZE {
      single := true;
      ram' := FillInside(ram, d, buf, offset, first, f);
    } else {
      ram' := FillSpan(ram, d, buf, Span(offset, offset + |buf|), first, last, f);
    }
  }

  class SeqFile {
    const alloc: BlockAllocator
    const place: Placement
    const canRead: bool
    const canWrite: bool
    var ram: Ram
    var txs: seq<Tx>
    ghost var file: BF.File

    ghost predicate Valid()
      reads this, alloc, alloc.bitmap
    {
      && place.first % GROW == 0 && Apart(Addr(place))
      && Shape(alloc.lists, alloc.bitmap.entries, ram, Addr(place), txs, file)
    }

    /** A new file in memory `ram`, with an empty block in place of holes. */
    constructor (alloc: BlockAllocator, ram: Ram, place: Placement, canRead: bool, canWrite: bool)
      requires alloc.Valid() && Frees(alloc.lists, alloc.bitmap.entries)
      requires place.first % GROW == 0 && Apart(Addr(place)) && BlockOf(ram, Addr(place), 0) == BF.Zeros()
      ensures Valid() && file == [] && txs == [] && this.alloc == alloc && this.place == place
      ensures this.canRead == canRead && this.canWrite == canWrite
    {
      this.alloc, this.place, this.canRead, this.canWrite := alloc, place, canRead, canWrite;
      this.ram, txs, file := ram, [], [];
      new;
      forall v: nat ensures BlockOf(ram, Addr(place), 0) == BF.Page([], v) { BF.PageOfEmpty(v); }
    }

    /** Allocates the destination, in chunks of at most 64 blocks. */
    method AllocChunks(n: nat) returns (ok: bool, lidxs: seq<nat>)
      requires Valid()
      modifies alloc, alloc.bitmap
      ensures Valid()
      ensures ok ==> Owned(alloc.lists, alloc.bitmap.entries, txs, lidxs, n)
      ensures Took(old(alloc.lists), old(alloc.bitmap.entries), alloc.lists, alloc.bitmap.entries, lidxs, n)
      ensures !ok ==> Exhausted(alloc.recent, alloc.bitmap.entries)
      ensures Pieced(old(alloc.lists), place.first) ==> InPieces(alloc.lists, place.first, lidxs, n)
      ensures Enough(old(alloc.lists), n) ==>
                ok && lidxs == Tops(old(alloc.lists), n) && alloc.lists == Rest(old(alloc.lists), n)
    {
      ghost var l0, e0 := alloc.lists, alloc.bitmap.entries;
      lidxs := [];
      var rest := n;
      while rest > 0
        invariant alloc.Valid() && rest == (if CHUNK * |lidxs| < n then n - CHUNK * |lidxs| else 0)
        invariant Took(l0, e0, alloc.lists, alloc.bitmap.entries, lidxs, n)
        invariant Pieced(l0, place.first) ==> InPieces(alloc.lists, place.first, lidxs, n)
        invariant Enough(l0, n) ==> Popped(l0, n, alloc.lists, rest, lidxs)
      {
        ghost var l1, e1 := alloc.lists, alloc.bitmap.entries;
        var num := Min(rest, CHUNK);
        if Enough(l0, n) { PopMore(l0, n, l1, rest, lidxs); }
        var r := alloc.Alloc(num);
        if r.None? {
          TookNone(l0, e0, l1, e1, alloc.lists, alloc.bitmap.entries, lidxs, n, num);
          TakeStep(l0, e0, alloc.lists, alloc.bitmap.entries, ram, Addr(place), txs, file, lidxs, n);
          return false, lidxs;
        }
        TookMore(l0, e0, l1, e1, alloc.lists, alloc.bitmap.entries, lidxs, n, r.value);
        lidxs := lidxs + [r.value];
        rest := rest - num;
      }
      TakeStep(l0, e0, alloc.lists, alloc.bitmap.entries, ram, Addr(place), txs, file, lidxs, n);
      ok := true;
    }

    /** Gives the superseded blocks to the lists; fails if a run of them is too
        long for any list. */
    method Recycle(image: seq<nat>, single: bool) returns (ok: bool)
      requires alloc.Valid() && (single ==> |image| == 1)
      modifies alloc
      ensures ok <==> Listable(Runs(image))
      ensures ok ==> Returned(old(alloc.lists), alloc.lists, image)
      ensures ok ==> alloc.lists == PushAll(old(alloc.lists), Runs(image))
    {
      if single {
        alloc.FreeRun(image[0], 1);
        OneReturned(old(alloc.lists), alloc.lists, image);
        ok := true;
      } else {
        ok := alloc.FreeImage(image);
      }
    }

    /** Commits the filled blocks and recycles what was superseded. */
    method Commit(lidxs: seq<nat>, begin: nat, n: nat, ram': Ram, end: nat, room: nat, single: bool, ghost u: BF.Update)
      returns (ok: bool)
      requires Valid() && n > 0 && room > 0 && Owned(alloc.lists, alloc.bitmap.entries, txs, lidxs, n)
      requires u.data != [] && end == u.offset + |u.data|
      requires begin * BLOCK_SIZE <= u.offset && begin + n == BlocksFor(end)
      requires Installed(ram, ram', Addr(place), lidxs, n, Pages(BF.Write(file, u), begin * BLOCK_SIZE, n))
      requires single ==> n == 1
      modifies this, alloc
      ensures ok <==> Listable(Runs(Image(old(txs), begin, n)))
      ensures ok ==> Valid() && file == BF.Write(old(file), u)
      ensures ok ==> alloc.lists == PushAll(old(alloc.lists), Runs(Image(old(txs), begin, n)))
      ensures txs == old(txs) + [Written(old(txs), room, begin, n, lidxs, end)]
    {
      var tx := Written(txs, room, begin, n, lidxs, end);
      var image := Image(txs, begin, n);
      ghost var lists0, ram0, txs0, file0 := alloc.lists, ram, txs, file;
      ram, txs, file := ram', txs + [tx], BF.Write(file, u);
      ok := Recycle(image, single);
      if ok {
        CommitAll(lists0, alloc.lists, alloc.bitmap.entries, ram0, ram', Addr(place), txs0, file0, u, lidxs, begin, n,
                  end, room);
        assert Shape(alloc.lists, alloc.bitmap.entries, ram, Addr(place), txs, file);
      }
    }

    /** Fills the destination, by the three kinds of transactions. */
    method Fill(buf: seq<Byte>, offset: nat, lidxs: seq<nat>, n: nat) returns (ram': Ram, single: bool)
      requires Valid() && buf != [] && n == NumBlocks(Span(offset, offset + |buf|))
      requires Owned(alloc.lists, alloc.bitmap.entries, txs, lidxs, n) && Fillable(Addr(place), lidxs, n)
      ensures var bytes := Pages(BF.Write(file, BF.Update(offset, buf)), offset / BLOCK_SIZE * BLOCK_SIZE, n);
              Installed(ram, ram', Addr(place), lidxs, n, bytes)
      ensures single ==> n == 1
    {
      var d := DestOf(Addr(place), lidxs, n);
      FillableIsDest(Addr(place), lidxs, n);
      var first := Source(offset / BLOCK_SIZE, lidxs, n);
      var last := Source(offset / BLOCK_SIZE + n - 1, lidxs, n);
      ram', single := FillAny(ram, d, buf, offset, first, last, file);
      ghost var bytes := Pages(BF.Write(file, BF.Update(offset, buf)), offset / BLOCK_SIZE * BLOCK_SIZE, n);
      FilledBlocks(ram, ram', Addr(place), lidxs, n, bytes);
    }

    /** The address of the block that is replaced at `v`. */
    method Source(v: nat, ghost lidxs: seq<nat>, ghost n: nat) returns (a: nat)
      requires Valid() && Owned(alloc.lists, alloc.bitmap.entries, txs, lidxs, n) && Fillable(Addr(place), lidxs, n)
      ensures Clear(DestOf(Addr(place), lidxs, n), a) && Slice(ram, a, BLOCK_SIZE) == BF.Page(file, v)
    {
      LiveElsewhere(alloc.lists, alloc.bitmap.entries, txs, lidxs, n, v);
      OthersAreClear(Addr(place), lidxs, n, Lookup(txs, v));
      assert BlockOf(ram, Addr(place), Lookup(txs, v)) == BF.Page(file, v);
      a := Addr(place)(Lookup(txs, v));
    }

    /** The blocks that a write of `buf` supersedes. */
    function Superseded(buf: seq<Byte>, offset: nat): seq<nat>
      requires HistoryOk(txs)
      reads this
    {
      Image(txs, offset / BLOCK_SIZE, NumBlocks(Span(offset, offset + |buf|)))
    }

    /** `pwrite`: the file changes as a byte array does, or not at all, or memory
        outside the destination or the lists is overwritten. That is so for a
        destination run that leaves its piece of the mapping, or a superseded run
        of more than 64 blocks. `room` is the space left for the first log entry,
        in chunks. */
    method Pwrite(buf: seq<Byte>, offset: nat, room: nat) returns (r: Result<nat>)
      requires Valid() && room > 0
      modifies this, alloc, alloc.bitmap
      ensures r.Ok? ==> canWrite && r.value == |buf| && file == BF.Write(old(file), BF.Update(offset, buf))
      ensures r != Err(Overrun) ==> Valid() && (r.Err? ==> file == old(file))
      ensures r == Err(BadFile) <==> !canWrite
      ensures r == Err(NoSpace) ==> Exhausted(alloc.recent, alloc.bitmap.entries)
      ensures r == Err(Overrun) ==>
                !Pieced(old(alloc.lists), place.first) || !Listable(Runs(old(Superseded(buf, offset))))
      ensures canWrite && buf != [] && Enough(old(alloc.lists), NumBlocks(Span(offset, offset + |buf|))) ==>
                AsListed(old(alloc.lists), alloc.lists, old(txs), txs, place, room, offset / BLOCK_SIZE,
                         NumBlocks(Span(offset, offset + |buf|)), offset + |buf|, r)
      ensures r.Ok? && buf != [] ==>
                Recycled(old(alloc.lists), alloc.lists, Runs(old(Superseded(buf, offset))), place.first)
      ensures r == Err(BadFile) || r == Err(NoSpace) || buf == [] ==>
                (Pieced(old(alloc.lists), place.first) ==> Pieced(alloc.lists, place.first))
    {
      if !canWrite { return Err(BadFile); }
      if |buf| == 0 { return Ok(0); }
      var begin, end := offset / BLOCK_SIZE, offset + |buf|;
      r := WriteSome(buf, offset, room, begin, NumBlocks(Span(offset, end)), end);
    }

    /** A write of at least one byte. */
    method WriteSome(buf: seq<Byte>, offset: nat, room: nat, begin: nat, n: nat, end: nat) returns (r: Result<nat>)
      requires Valid() && room > 0 && buf != [] && begin == offset / BLOCK_SIZE && end == offset + |buf|
      requires n == NumBlocks(Span(offset, end)) > 0
      modifies this, alloc, alloc.bitmap
      ensures r.Ok? ==> r.value == |buf| && file == BF.Write(old(file), BF.Update(offset, buf))
      ensures r != Err(Overrun) ==> Valid() && (r.Err? ==> file == old(file))
      ensures r != Err(BadFile) && (r == Err(NoSpace) ==> Exhausted(alloc.recent, alloc.bitmap.entries))
      ensures r == Err(Overrun) ==>
                !Pieced(old(alloc.lists), place.first) || !Listable(Runs(Image(old(txs), begin, n)))
      ensures Enough(old(alloc.lists), n) ==>
                AsListed(old(alloc.lists), alloc.lists, old(txs), txs, place, room, begin, n, end, r)
      ensures r.Ok? ==> Recycled(old(alloc.lists), alloc.lists, Runs(Image(old(txs), begin, n)), place.first)
      ensures r == Err(NoSpace) ==> (Pieced(old(alloc.lists), place.first) ==> Pieced(alloc.lists, place.first))
    {
      ghost var runs := Runs(Image(txs, begin, n));
      var ok, lidxs := AllocChunks(n);
      if !ok { return Err(NoSpace); }
      if !Fillable(Addr(place), lidxs, n) {
        NotFillable(alloc.lists, alloc.bitmap.entries, txs, place, lidxs, n);
        return Err(Overrun);
      }
      ghost var lists := alloc.lists;
      ok := WriteTo(buf, offset, room, lidxs, begin, n, end);
      if !ok { return Err(Overrun); }
      PushAllPieced(lists, runs, place.first);
      r := Ok(|buf|);
    }

    /** Fills and commits a destination. */
    method WriteTo(buf: seq<Byte>, offset: nat, room: nat, lidxs: seq<nat>, begin: nat, n: nat, end: nat)
      returns (ok: bool)
      requires Valid() && room > 0 && buf != [] && begin == offset / BLOCK_SIZE && end == offset + |buf|
      requires n == NumBlocks(Span(offset, end)) > 0
      requires Owned(alloc.lists, alloc.bitmap.entries, txs, lidxs, n) && Fillable(Addr(place), lidxs, n)
      modifies this, alloc
      ensures ok <==> Listable(Runs(Image(old(txs), begin, n)))
      ensures ok ==> Valid() && file == BF.Write(old(file), BF.Update(offset, buf))
      ensures ok ==> alloc.lists == PushAll(old(alloc.lists), Runs(Image(old(txs), begin, n)))
      ensures txs == old(txs) + [Written(old(txs), room, begin, n, lidxs, end)]
    {
      var ram', single := Fill(buf, offset, lidxs, n);
      ok := Commit(lidxs, begin, n, ram', end, room, single, BF.Update(offset, buf));
    }

    /** `pread`: contiguous blocks are copied together, whatever their addresses
        are. */
    method Pread(count: nat, offset: nat) returns (r: Result<seq<Byte>>)
      requires Valid()
      ensures r == if canRead then Ok(BF.Read(file, offset, count)) else Err(BadFile)
    {
      ReadBytes(file, offset, count);
      if !canRead { return Err(BadFile); }
      if count == 0 { return Ok([]); }
      var size := SizeOf(txs);
      if offset >= size { return Ok([]); }
      var buf := CopyBlocks(count, Min(count, size - offset), offset);
      r := Ok(buf);
    }

    /** The copy loop of `pread`; `left` is `count` cut at the end of the file. */
    method CopyBlocks(count: nat, left: nat, offset: nat) returns (buf: seq<Byte>)
      requires Valid() && 0 < left <= count && offset + left <= SizeOf(txs)
      ensures buf == Bytes(file, offset, left)
    {
      var addr := Addr(place);
      var begin, end := offset / BLOCK_SIZE, BlocksFor(offset + left);
      var skip := offset - begin * BLOCK_SIZE;
      var a: nat := addr(Lookup(txs, begin)) + skip;
      var contiguous: nat := Min(count, BLOCK_SIZE - skip);
      buf := [];
      MappedPage(ram, addr, txs, file, begin);
      InRamPart(ram, a - skip, file, begin * BLOCK_SIZE, BLOCK_SIZE, skip, contiguous);
      var v := begin + 1;
      while v < end
        invariant begin < v <= end && |buf| <= left && Copied(buf, file, offset)
        invariant InRam(ram, a, file, offset + |buf|, contiguous)
        invariant if v < end then |buf| + contiguous == v * BLOCK_SIZE - offset else |buf| + contiguous >= left
      {
        var b := addr(Lookup(txs, v));
        MappedPage(ram, addr, txs, file, v);
        a, contiguous, buf := JoinOrCopy(ram, a, contiguous, buf, b, file, offset, v * BLOCK_SIZE);
        v := v + 1;
      }
      var num := Min(contiguous, left - |buf|);
      InRamPart(ram, a, file, offset + |buf|, contiguous, 0, num);
      CopyMore(buf, file, offset, ram, a, num);
      buf := buf + Slice(ram, a, num);
    }
  }

  /** Listed runs and the chunks taken are in one piece each. */
  ghost predicate InPieces(lists: seq<seq<nat>>, first: nat, lidxs: seq<nat>, n: nat)
  {
    && Pieced(lists, first)
    && forall i: nat | i < |lidxs| && i < ChunksFor(n) :: InOnePiece(first, lidxs[i], ChunkLen(n, i))
  }

  /** If the lists alone supply the destination, this is what a write does: it takes
      the runs on top of them, and succeeds exactly if these can be filled through
      their first blocks and no superseded run is too long for the lists. */
  ghost predicate AsListed(lists0: seq<seq<nat>>, lists: seq<seq<nat>>, txs0: seq<Tx>, txs: seq<Tx>, place: Placement,
                           room: nat, begin: nat, n: nat, end: nat, r: Result<nat>)
    requires |lists0| == CHUNK && HistoryOk(txs0) && room > 0 && n > 0 && Enough(lists0, n)
  {
    var lidxs, runs := Tops(lists0, n), Runs(Image(txs0, begin, n));
    && (r.Ok? <==> Fillable(Addr(place), lidxs, n) && Listable(runs)) && r != Err(NoSpace)
    && (r.Ok? ==> txs == txs0 + [Written(txs0, room, begin, n, lidxs, end)] && lists == PushAll(Rest(lists0, n), runs))
  }

  /** The superseded runs are on top of the lists, whose runs are in one piece each
      exactly if they are, in case they were before. */
  ghost predicate Recycled(lists0: seq<seq<nat>>, lists: seq<seq<nat>>, runs: seq<Extent>, first: nat)
  {
    && Listable(runs) && (exists l: seq<seq<nat>> :: |l| == CHUNK && lists == PushAll(l, runs))
    && (Pieced(lists0, first) ==> (Pieced(lists, first) <==> RunsPieced(runs, first)))
  }

  lemma NotFillable(lists: seq<seq<nat>>, entries: seq<Word>, txs: seq<Tx>, place: Placement, lidxs: seq<nat>, n: nat)
    requires |lists| == CHUNK && HistoryOk(txs) && Owned(lists, entries, txs, lidxs, n) && place.first % GROW == 0
    requires !Fillable(Addr(place), lidxs, n)
    ensures !InPieces(lists, place.first, lidxs, n)
  {
    var i: nat :| i < |lidxs| && !Contiguous(Addr(place), lidxs[i], ChunkLen(n, i));
    assert Nth(lidxs, CHUNK * i) == lidxs[i] && OwnedAt(lists, entries, txs, Nth(lidxs, CHUNK * i));
    if InOnePiece(place.first, lidxs[i], ChunkLen(n, i)) {
      OnePieceIsContiguous(place, lidxs[i], ChunkLen(n, i));
    }
  }

  lemma OneReturned(lists: seq<seq<nat>>, lists': seq<seq<nat>>, image: seq<nat>)
    requires |image| == 1 && |lists| == CHUNK && lists' == if image[0] == 0 then lists else Push(lists, image[0], 1)
    ensures Listable(Runs(image)) && lists' == PushAll(lists, Runs(image)) && Returned(lists, lists', image)
  {
    assert image[..0] == [] && Runs([]) == [];
    var runs := Runs(image);
    assert runs == if image[0] == 0 then [] else [Extent(image[0], 1)];
    OnePush(lists, image[0]);
    ImageCount(lists, image);
  }

  lemma OnePush(lists: seq<seq<nat>>, block: nat)
    requires |lists| == CHUNK
    ensures PushAll(lists, []) == lists && PushAll(lists, [Extent(block, 1)]) == Push(lists, block, 1)
  {
    assert [Extent(block, 1)][..0] == [];
  }

  lemma TookNone(l0: seq<seq<nat>>, e0: seq<Word>, l: seq<seq<nat>>, e: seq<Word>, l': seq<seq<nat>>, e': seq<Word>,
                 lidxs: seq<nat>, n: nat, num: nat)
    requires Took(l0, e0, l, e, lidxs, n) && Conserved(l, e, l', e', None, num)
    ensures Took(l0, e0, l', e', lidxs, n)
  {
    forall x: nat ensures FreeCount(l', e', x) + HeldIn(lidxs, n, |lidxs|, x) == FreeCount(l0, e0, x) {
      assert FreeCount(l', e', x) + Taken(None, num, x) == FreeCount(l, e, x);
    }
  }
}
