/** The list of transaction blocks that a garbage collection writes: how the new
    entries are stored, padded and linked to the old tail block, and what a replay
    that starts at the meta block makes of it. */
module NewList {
  import opened Layout
  import opened Entry
  import opened TxLog
  import opened TxLogSafety
  import opened Crash

  // The first slot of a transaction block's last cache line.
  const LAST_LINE: nat := 504

  // The entry that maps nothing.
  const DUMMY: TxEntry := Inline(0, 0, 0)

  /** The number of blocks that hold `n` entries. */
  function ListLength(n: nat): nat { (n + TX_SLOTS - 1) / TX_SLOTS }

  /** Only the last cache line of a new block is zeroed: its last slots and its
      links. The other slots keep what the block held before. */
  function Zeroed(slots: seq<Option<TxEntry>>): (s: seq<Option<TxEntry>>)
    requires |slots| == TX_SLOTS
    ensures |s| == TX_SLOTS
  {
    seq(TX_SLOTS, k requires 0 <= k < TX_SLOTS => if k < LAST_LINE then slots[k] else None)
  }

  function Cleared(blk: TxBlock, txSeq: nat): TxBlock
    requires |blk.slots| == TX_SLOTS
  {
    TxBlock(Zeroed(blk.slots), 0, txSeq)
  }

  /** A store behind the last slot falls on the link. */
  function StoreAt(blk: TxBlock, k: nat, e: TxEntry): TxBlock
    requires |blk.slots| == TX_SLOTS && k <= TX_SLOTS
  {
    if k < TX_SLOTS then blk.(slots := blk.slots[k := Some(e)]) else blk.(next := Encode(e) % TWO_32)
  }

  /** One step of a cursor that may not allocate; it is in the overflow state
      afterwards if it failed. */
  function Stepped(blocks: map<nat, TxBlock>, c: Cursor): Cursor
    requires c.block in blocks && c.local <= TX_SLOTS
  {
    if c.local + 1 < TX_SLOTS || blocks[c.block].next == 0 then Cursor(c.block, c.local + 1)
    else Cursor(blocks[c.block].next, c.local + 1 - TX_SLOTS)
  }

  /* What the blocks hold. */

  /** The slots of the `j`-th block once the first `n` entries are stored. */
  function SlotsAfter(es: seq<TxEntry>, n: nat, stale: seq<Option<TxEntry>>, j: nat): (s: seq<Option<TxEntry>>)
    requires n <= |es| && |stale| == TX_SLOTS
    ensures |s| == TX_SLOTS
  {
    seq(TX_SLOTS, k requires 0 <= k < TX_SLOTS =>
      if TX_SLOTS * j + k < n then Some(es[TX_SLOTS * j + k]) else if k < LAST_LINE then stale[k] else None)
  }

  /** Blocks that an allocator may hand out for the list. */
  ghost predicate FreshBlocks(mem: map<nat, TxBlock>, news: seq<nat>)
  {
    && (forall j | 0 <= j < |news| :: news[j] != 0 && news[j] in mem && |mem[news[j]].slots| == TX_SLOTS)
    && forall i, j | 0 <= i < j < |news| :: news[i] != news[j]
  }

  /** The `j`-th of the blocks up to `last` holds its share of the first `n`
      entries and leads to the next one; the last one leads to `end`. */
  ghost predicate HoldsAt(blocks: map<nat, TxBlock>, mem: map<nat, TxBlock>, es: seq<TxEntry>, n: nat,
                          news: seq<nat>, last: nat, end: nat, j: nat)
    requires FreshBlocks(mem, news) && j <= last < |news| && n <= |es|
  {
    var next := if j < last then news[j + 1] else end;
    news[j] in blocks && blocks[news[j]] == TxBlock(SlotsAfter(es, n, mem[news[j]].slots, j), next, j + 1)
  }

  ghost predicate Spells(blocks: map<nat, TxBlock>, mem: map<nat, TxBlock>, es: seq<TxEntry>, n: nat,
                         news: seq<nat>, last: nat, end: nat)
    requires FreshBlocks(mem, news) && last < |news| && n <= |es|
  {
    forall j | 0 <= j <= last :: HoldsAt(blocks, mem, es, n, news, last, end, j)
  }

  /** Only the blocks `touched` may have changed. */
  ghost predicate SameBut(blocks: map<nat, TxBlock>, mem: map<nat, TxBlock>, touched: seq<nat>)
  {
    blocks.Keys == mem.Keys && forall b | b in mem && b !in touched :: blocks[b] == mem[b]
  }

  /* The loop that stores the entries. */

  lemma StoreOne(blk: TxBlock, es: seq<TxEntry>, n: nat, stale: seq<Option<TxEntry>>, j: nat, k: nat)
    requires n < |es| && |stale| == TX_SLOTS && k < TX_SLOTS && n == TX_SLOTS * j + k
    requires blk.slots == SlotsAfter(es, n, stale, j)
    ensures StoreAt(blk, k, es[n]).slots == SlotsAfter(es, n + 1, stale, j)
  {
  }

  /** Blocks that are full already are not touched by later entries. */
  lemma StoredElsewhere(es: seq<TxEntry>, n: nat, stale: seq<Option<TxEntry>>, j: nat, i: nat)
    requires n < |es| && |stale| == TX_SLOTS && TX_SLOTS * i <= n && j < i
    ensures SlotsAfter(es, n, stale, j) == SlotsAfter(es, n + 1, stale, j)
  {
  }

  lemma StoreStep(blocks: map<nat, TxBlock>, after: map<nat, TxBlock>, mem: map<nat, TxBlock>, es: seq<TxEntry>, n: nat,
                  news: seq<nat>, last: nat, end: nat)
    requires FreshBlocks(mem, news) && last < |news| && n < |es| && last == n / TX_SLOTS
    requires Spells(blocks, mem, es, n, news, last, end) && HoldsAt(blocks, mem, es, n, news, last, end, last)
    requires after == blocks[news[last] := StoreAt(blocks[news[last]], n % TX_SLOTS, es[n])]
    ensures Spells(after, mem, es, n + 1, news, last, end) && after.Keys == blocks.Keys
  {
    var m := n + 1;
    forall j | 0 <= j <= last ensures HoldsAt(after, mem, es, m, news, last, end, j) {
      assert HoldsAt(blocks, mem, es, n, news, last, end, j);
      if j < last {
        StoredElsewhere(es, n, mem[news[j]].slots, j, last);
      } else {
        StoreOne(blocks[news[j]], es, n, mem[news[j]].slots, j, n % TX_SLOTS);
      }
    }
  }

  /** The block behind a full one. */
  lemma LinkStep(blocks: map<nat, TxBlock>, after: map<nat, TxBlock>, mem: map<nat, TxBlock>, es: seq<TxEntry>, n: nat,
                 news: seq<nat>, last: nat)
    requires FreshBlocks(mem, news) && last + 1 < |news| && n <= |es| && n == TX_SLOTS * (last + 1)
    requires Spells(blocks, mem, es, n, news, last, 0) && SameBut(blocks, mem, news)
    requires HoldsAt(blocks, mem, es, n, news, last, 0, last)
    requires after == blocks[news[last] := blocks[news[last]].(next := news[last + 1])]
                            [news[last + 1] := Cleared(mem[news[last + 1]], last + 2)]
    ensures Spells(after, mem, es, n, news, last + 1, 0) && SameBut(after, mem, news)
  {
    var top := last + 1;
    forall j | 0 <= j <= top ensures HoldsAt(after, mem, es, n, news, top, 0, j) {
      if j <= last {
        assert HoldsAt(blocks, mem, es, n, news, last, 0, j);
      } else {
        assert Zeroed(mem[news[j]].slots) == SlotsAfter(es, n, mem[news[j]].slots, j);
      }
    }
  }

  /** One turn of the loop: the `i`-th entry is stored, and if that fills the block,
      the next one is prepared and linked. */
  method StoreEntry(blocks: map<nat, TxBlock>, cursor: Cursor, es: seq<TxEntry>, i: nat, news: seq<nat>,
                    mem: map<nat, TxBlock>, ghost last: nat)
    returns (after: map<nat, TxBlock>, next: Cursor)
    requires FreshBlocks(mem, news) && i + 1 < |es| && last == i / TX_SLOTS && (i + 1) / TX_SLOTS < |news|
    requires cursor == Cursor(news[last], i % TX_SLOTS)
    requires Spells(blocks, mem, es, i, news, last, 0) && SameBut(blocks, mem, news)
    ensures next == Cursor(news[(i + 1) / TX_SLOTS], (i + 1) % TX_SLOTS)
    ensures Spells(after, mem, es, i + 1, news, (i + 1) / TX_SLOTS, 0) && SameBut(after, mem, news)
  {
    assert HoldsAt(blocks, mem, es, i, news, last, 0, last);
    after := blocks[cursor.block := StoreAt(blocks[cursor.block], cursor.local, es[i])];
    StoreStep(blocks, after, mem, es, i, news, last, 0);
    assert HoldsAt(after, mem, es, i + 1, news, last, 0, last);
    next := Stepped(after, cursor);
    if next.local >= TX_SLOTS {
      var txSeq := after[next.block].txSeq;
      var b := news[txSeq];
      ghost var stored := after;
      after := after[next.block := after[next.block].(next := b)][b := Cleared(mem[b], txSeq + 1)];
      LinkStep(stored, after, mem, es, i + 1, news, last);
      next := Cursor(b, 0);
    }
  }

  method StoreEntries(es: seq<TxEntry>, news: seq<nat>, mem: map<nat, TxBlock>)
    returns (blocks: map<nat, TxBlock>, cursor: Cursor)
    requires es != [] && |news| == ListLength(|es|) && FreshBlocks(mem, news)
    ensures Spells(blocks, mem, es, |es|, news, |news| - 1, 0) && SameBut(blocks, mem, news)
    ensures cursor == Cursor(news[|news| - 1], (|es| - 1) % TX_SLOTS)
  {
    blocks, cursor := mem[news[0] := Cleared(mem[news[0]], 1)], Cursor(news[0], 0);
    var i := 0;
    assert Zeroed(mem[news[0]].slots) == SlotsAfter(es, 0, mem[news[0]].slots, 0);
    while i + 1 < |es|
      invariant i < |es| && cursor == Cursor(news[i / TX_SLOTS], i % TX_SLOTS)
      invariant Spells(blocks, mem, es, i, news, i / TX_SLOTS, 0) && SameBut(blocks, mem, news)
    {
      blocks, cursor := StoreEntry(blocks, cursor, es, i, news, mem, i / TX_SLOTS);
      i := i + 1;
    }
    ghost var before, last := blocks, i / TX_SLOTS;
    assert HoldsAt(before, mem, es, i, news, last, 0, last);
    blocks := blocks[cursor.block := StoreAt(blocks[cursor.block], cursor.local, es[i])];
    StoreStep(before, blocks, mem, es, i, news, last, 0);
  }

  /* Padding and linking. */

  /** The padding loop. If the last entry is not in the last slot, it pads nothing;
      if it is, the dummy entry falls on the link, and the cursor follows that link
      into block 1. */
  method Pad(blocks: map<nat, TxBlock>, from: Cursor) returns (after: map<nat, TxBlock>, cursor: Cursor)
    requires from.block in blocks && |blocks[from.block].slots| == TX_SLOTS && from.local < TX_SLOTS
    requires blocks[from.block].next == 0
    ensures from.local + 1 < TX_SLOTS ==> after == blocks && cursor == Cursor(from.block, from.local + 1)
    ensures from.local + 1 == TX_SLOTS ==>
              after == blocks[from.block := blocks[from.block].(next := 1)] && cursor == Cursor(1, 1)
  {
    after, cursor := blocks, Stepped(blocks, from);
    while cursor.local >= TX_SLOTS
      invariant cursor.local < TX_SLOTS ||
                (cursor == Cursor(from.block, TX_SLOTS) && after == blocks && from.local + 1 == TX_SLOTS)
      invariant from.local + 1 < TX_SLOTS ==> after == blocks && cursor == Cursor(from.block, from.local + 1)
      invariant from.local + 1 == TX_SLOTS && cursor.local < TX_SLOTS ==>
                  after == blocks[from.block := blocks[from.block].(next := 1)] && cursor == Cursor(1, 1)
      decreases cursor.local
    {
      after := after[cursor.block := StoreAt(after[cursor.block], cursor.local, DUMMY)];
      assert Encode(DUMMY) == 1;
      cursor := Stepped(after, cursor);
    }
  }

  /** The meta block of a collected file: its slots are full of dummy entries and
      its link leads to the new list. */
  function CollectedMeta(meta: TxBlock, first: nat): TxBlock
  {
    TxBlock(seq(META_SLOTS, _ => Some(DUMMY)), first, meta.txSeq)
  }

  /** What a collection needs: the meta block, block 1 and the old tail block exist,
      and the blocks of the new list are none of the list's old ones. */
  ghost predicate BlocksReady(mem: map<nat, TxBlock>, news: seq<nat>, tail: nat)
  {
    FreshBlocks(mem, news) && 0 in mem && 1 in mem && tail in mem && tail != 0 && tail !in news
  }

  lemma Relinked(stored: map<nat, TxBlock>, blocks: map<nat, TxBlock>, mem: map<nat, TxBlock>, es: seq<TxEntry>,
                 news: seq<nat>, last: nat, end: nat)
    requires FreshBlocks(mem, news) && last < |news|
    requires Spells(stored, mem, es, |es|, news, last, 0) && blocks.Keys == stored.Keys && news[last] in stored
    requires blocks[news[last]] == stored[news[last]].(next := end)
    requires forall j | 0 <= j < last :: news[j] in blocks && blocks[news[j]] == stored[news[j]]
    ensures Spells(blocks, mem, es, |es|, news, last, end)
  {
    var n := |es|;
    forall j | 0 <= j <= last ensures HoldsAt(blocks, mem, es, n, news, last, end, j) {
      assert HoldsAt(stored, mem, es, n, news, last, 0, j);
    }
  }

  /** The new list. It is given up if the old one has no more blocks. Where the
      last block leads depends on whether the entries fill it: to the old tail
      block if they do not, to block 1 if they do, and then it is block 1's
      sequence number that decides. */
  method CreateList(es: seq<TxEntry>, news: seq<nat>, mem: map<nat, TxBlock>, tail: nat)
    returns (ok: bool, blocks: map<nat, TxBlock>)
    requires es != [] && |news| == ListLength(|es|) && BlocksReady(mem, news, tail)
    ensures Spells(blocks, mem, es, |es|, news, |news| - 1, if |es| % TX_SLOTS == 0 then 1 else tail)
    ensures |es| % TX_SLOTS != 0 ==> SameBut(blocks, mem, news + [0]) && (ok <==> mem[tail].txSeq > |news|)
    ensures |es| % TX_SLOTS == 0 ==> SameBut(blocks, mem, news + [0, 1]) && (ok <==> mem[tail].txSeq > blocks[1].txSeq)
    ensures blocks[0] == if ok then CollectedMeta(mem[0], news[0]) else mem[0]
  {
    var cursor;
    blocks, cursor := StoreEntries(es, news, mem);
    ghost var last, stored := |news| - 1, blocks;
    assert HoldsAt(stored, mem, es, |es|, news, last, 0, last);
    blocks, cursor := Pad(blocks, cursor);
    if blocks[cursor.block].next == 0 {
      blocks := blocks[cursor.block := blocks[cursor.block].(next := tail)];
    }
    ok := blocks[tail].txSeq > blocks[cursor.block].txSeq;
    if ok {
      blocks := blocks[0 := CollectedMeta(blocks[0], news[0])];
    }
    forall j | 0 <= j < last ensures news[j] in blocks && blocks[news[j]] == stored[news[j]] {
      assert HoldsAt(stored, mem, es, |es|, news, last, 0, j);
    }
    Relinked(stored, blocks, mem, es, news, last, if |es| % TX_SLOTS == 0 then 1 else tail);
  }

  /* What a replay sees. */

  function Dummies(): (es: seq<TxEntry>) ensures |es| == META_SLOTS { seq(META_SLOTS, _ => DUMMY) }

  function SetOf(s: seq<nat>): set<nat> { set x | x in s }

  /** The filled slots are those before the first empty one. */
  lemma {:induction false} FilledSplit(slots: seq<Option<TxEntry>>, es: seq<TxEntry>)
    requires |es| <= |slots| && forall k | 0 <= k < |es| :: slots[k] == Some(es[k])
    ensures Filled(slots) == es + Filled(slots[|es|..])
  {
    var rest := slots[|es|..];
    var all := es + Filled(rest);
    assert forall k | 0 <= k < |rest| :: rest[k] == slots[|es| + k];
    assert forall k | 0 <= k < |all| :: slots[k] == Some(all[k]);
    assert |all| < |slots| ==> slots[|all|] == rest[|all| - |es|];
    FilledIs(slots, all);
  }

  /** What is read behind the entries of the list, in an image without the blocks
      before: the rest of the last block if it is not full, and where its link leads
      if it is. */
  ghost function Behind(img: map<nat, TxBlock>, stale: seq<Option<TxEntry>>, es: seq<TxEntry>, end: nat): seq<TxEntry>
    requires |stale| == TX_SLOTS
  {
    if |es| % TX_SLOTS == 0 then Recovered(img, end) else Filled(Zeroed(stale)[|es| % TX_SLOTS..])
  }

  lemma Share(slots: seq<Option<TxEntry>>, es: seq<TxEntry>, stale: seq<Option<TxEntry>>, j: nat, lo: nat, hi: nat)
    requires |stale| == TX_SLOTS && lo == TX_SLOTS * j && lo <= hi <= |es| && hi == Min(lo + TX_SLOTS, |es|)
    requires slots == SlotsAfter(es, |es|, stale, j)
    ensures forall k | 0 <= k < hi - lo :: slots[k] == Some(es[lo..hi][k])
    ensures slots[hi - lo..] == Zeroed(stale)[hi - lo..]
  {
    forall k | 0 <= k < hi - lo ensures slots[k] == Some(es[lo..hi][k]) { assert es[lo..hi][k] == es[lo + k]; }
    forall k | hi - lo <= k < TX_SLOTS ensures slots[k] == Zeroed(stale)[k] {}
  }

  /** One block of the list, whose first entry is the `lo`-th. */
  lemma {:induction false} ReplayBlock(slots: seq<Option<TxEntry>>, es: seq<TxEntry>, stale: seq<Option<TxEntry>>,
                                       j: nat, lo: nat, hi: nat)
    requires |stale| == TX_SLOTS && lo == TX_SLOTS * j && lo <= hi <= |es| && hi == Min(lo + TX_SLOTS, |es|)
    requires slots == SlotsAfter(es, |es|, stale, j)
    ensures Filled(slots) == es[lo..hi] + Filled(Zeroed(stale)[hi - lo..])
  {
    var part, rest := es[lo..hi], Zeroed(stale)[hi - lo..];
    Share(slots, es, stale, j, lo, hi);
    assert slots[|part|..] == rest;
    FilledSplit(slots, part);
  }

  /** A last block that is not full stays so: its last line was zeroed. */
  lemma NeverFull(stale: seq<Option<TxEntry>>, k: nat)
    requires |stale| == TX_SLOTS && k < TX_SLOTS
    ensures |Filled(Zeroed(stale)[k..])| < TX_SLOTS - k
    ensures Filled(Zeroed(stale)[k..]) == [] <==> k >= LAST_LINE || stale[k].None?
  {
    var rest := Zeroed(stale)[k..];
    assert rest[|rest| - 1].None?;
  }

  lemma Slices(es: seq<TxEntry>, from: nat, to: nat, more: seq<TxEntry>)
    requires from <= to <= |es|
    ensures es[from..to] + (es[to..] + more) == es[from..] + more
  {
  }

  lemma Remainder(n: nat, j: nat, lo: nat)
    requires lo == TX_SLOTS * j && lo < n <= lo + TX_SLOTS
    ensures n % TX_SLOTS == if n == lo + TX_SLOTS then 0 else n - lo
  {
  }

  /** One block of a replay whose filled slots hold `part`. */
  lemma RecoverBlock(img: map<nat, TxBlock>, b: nat, part: seq<TxEntry>)
    requires b in img && Filled(img[b].slots) == part && img[b].next != 0
    ensures |part| < |img[b].slots| ==> Recovered(img, b) == part
    ensures |part| == |img[b].slots| ==> Recovered(img, b) == part + Recovered(img - {b}, img[b].next)
  {
  }

  lemma {:induction false} ReplayLast(img: map<nat, TxBlock>, es: seq<TxEntry>, b: nat,
                                      stale: seq<Option<TxEntry>>, j: nat, lo: nat)
    requires |stale| == TX_SLOTS && lo == TX_SLOTS * j && lo < |es| <= lo + TX_SLOTS
    requires b in img && img[b].next != 0 && img[b].slots == SlotsAfter(es, |es|, stale, j)
    ensures Recovered(img, b) == es[lo..] + Behind(img - {b}, stale, es, img[b].next)
  {
    var k := |es| - lo;
    var rest := Filled(Zeroed(stale)[k..]);
    var part := es[lo..] + rest;
    assert Filled(img[b].slots) == part by { ReplayBlock(img[b].slots, es, stale, j, lo, |es|); }
    RecoverBlock(img, b, part);
    Remainder(|es|, j, lo);
    if k < TX_SLOTS {
      NeverFull(stale, k);
      assert Behind(img - {b}, stale, es, img[b].next) == rest;
    } else {
      assert rest == [] && part == es[lo..];
    }
  }

  lemma {:induction false} ReplayFull(img: map<nat, TxBlock>, es: seq<TxEntry>, b: nat,
                                      stale: seq<Option<TxEntry>>, j: nat, lo: nat, hi: nat, more: seq<TxEntry>)
    requires |stale| == TX_SLOTS && lo == TX_SLOTS * j && hi == lo + TX_SLOTS && hi <= |es|
    requires b in img && img[b].next != 0 && img[b].slots == SlotsAfter(es, |es|, stale, j)
    requires Recovered(img - {b}, img[b].next) == es[hi..] + more
    ensures Recovered(img, b) == es[lo..] + more
  {
    assert Filled(img[b].slots) == es[lo..hi] by { ReplayBlock(img[b].slots, es, stale, j, lo, hi); }
    RecoverBlock(img, b, es[lo..hi]);
    Slices(es, lo, hi, more);
  }

  lemma WithoutHead(img: map<nat, TxBlock>, news: seq<nat>, j: nat)
    requires j < |news|
    ensures img - {news[j]} - SetOf(news[j + 1..]) == img - SetOf(news[j..])
  {
    assert SetOf(news[j..]) == {news[j]} + SetOf(news[j + 1..]);
  }

  lemma {:induction false} ReplayFrom(img: map<nat, TxBlock>, mem: map<nat, TxBlock>, es: seq<TxEntry>,
                                      news: seq<nat>, n: nat, last: nat, end: nat, j: nat, lo: nat)
    requires FreshBlocks(mem, news) && |news| == last + 1 && n == |es| && j <= last && end != 0
    requires TX_SLOTS * last < n <= TX_SLOTS * last + TX_SLOTS && lo == TX_SLOTS * j
    requires forall i | j <= i <= last :: HoldsAt(img, mem, es, n, news, last, end, i)
    ensures lo <= n
    ensures Recovered(img, news[j]) == es[lo..] + Behind(img - SetOf(news[j..]), mem[news[last]].slots, es, end)
    decreases last - j
  {
    var b := news[j];
    assert HoldsAt(img, mem, es, n, news, last, end, j);
    WithoutHead(img, news, j);
    if j < last {
      var rest, hi := img - {b}, lo + TX_SLOTS;
      forall i | j + 1 <= i <= last ensures HoldsAt(rest, mem, es, n, news, last, end, i) {
        assert HoldsAt(img, mem, es, n, news, last, end, i);
      }
      ReplayFrom(rest, mem, es, news, n, last, end, j + 1, hi);
      var more := Behind(img - SetOf(news[j..]), mem[news[last]].slots, es, end);
      ReplayFull(img, es, b, mem[b].slots, j, lo, hi, more);
    } else {
      assert news[j + 1..] == [] && img - {b} - SetOf([]) == img - {b};
      ReplayLast(img, es, b, mem[b].slots, j, lo);
    }
  }

  lemma {:induction false} MetaFilled(meta: TxBlock, first: nat)
    ensures Filled(CollectedMeta(meta, first).slots) == Dummies()
  {
    FilledIs(CollectedMeta(meta, first).slots, Dummies());
  }

  lemma ReplayBehindMeta(blocks: map<nat, TxBlock>, first: nat, meta: TxBlock, es: seq<TxEntry>, more: seq<TxEntry>)
    requires 0 in blocks && first != 0 && blocks[0] == CollectedMeta(meta, first)
    requires Recovered(blocks - {0}, first) == es + more
    ensures Recovered(blocks, 0) == Dummies() + es + more
  {
    MetaFilled(meta, first);
    RecoverBlock(blocks, 0, Dummies());
    assert Dummies() + (es + more) == Dummies() + es + more;
  }

  /** A replay from the meta block sees the dummy entries, then the new ones, then
      what is behind them. */
  lemma {:induction false} ReplayOfList(blocks: map<nat, TxBlock>, mem: map<nat, TxBlock>, es: seq<TxEntry>,
                                        news: seq<nat>, end: nat, meta: TxBlock)
    requires es != [] && FreshBlocks(mem, news) && |news| == ListLength(|es|) && end != 0
    requires Spells(blocks, mem, es, |es|, news, |news| - 1, end)
    requires 0 in blocks && blocks[0] == CollectedMeta(meta, news[0])
    ensures Recovered(blocks, 0)
         == Dummies() + es + Behind(blocks - SetOf([0] + news), mem[news[|news| - 1]].slots, es, end)
  {
    var rest, n, last := blocks - {0}, |es|, |news| - 1;
    forall j | 0 <= j <= last ensures HoldsAt(rest, mem, es, n, news, last, end, j) {
      assert HoldsAt(blocks, mem, es, n, news, last, end, j);
    }
    ReplayFrom(rest, mem, es, news, n, last, end, 0, 0);
    assert rest - SetOf(news) == blocks - SetOf([0] + news) by { assert SetOf([0] + news) == {0} + SetOf(news); }
    var more := Behind(blocks - SetOf([0] + news), mem[news[last]].slots, es, end);
    assert news[0..] == news && es[0..] == es;
    ReplayBehindMeta(blocks, news[0], meta, es, more);
  }
}
