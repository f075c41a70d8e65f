/** Over any number of garbage collections, no thread follows a link into a block
    that has been freed. */
module PinSafety {
  import opened Layout
  import opened TxLog
  import opened Pins
  import opened Recycling

  // The transaction blocks that someone can come to: the current chain, from the
  // meta block on, and what earlier collections have kept for threads that have it
  // pinned. Of that, `orphans` is on the orphan list, whose links are `links`, and
  // `lost` is not, so no later collection finds it. `chain[from]` is the last block
  // of the chain that has been a collection's tail.
  datatype World = World(blocks: Blocks, chain: seq<nat>, orphans: seq<nat>, lost: seq<nat>, links: Links, from: nat,
                         pins: seq<nat>)

  datatype Action =
    | Extend(b: nat)                    // a new last block is linked
    | Pin(t: nat, i: nat)               // a thread pins a block of the chain
    | Move(t: nat)                      // or the one after its pinned block
    | Collect(n: nat, news: seq<nat>)   // `news` replaces the chain before `chain[n]`

  /** The link of `b` leads to a block with a larger sequence number. */
  ghost predicate Up(blocks: Blocks, b: nat)
  {
    && b in blocks && blocks[b].next != 0 && blocks[b].next in blocks
    && blocks[b].txSeq < blocks[blocks[b].next].txSeq
  }

  ghost predicate Leads(blocks: Blocks, b: nat, c: nat) { Up(blocks, b) && blocks[b].next == c }

  /** The `i`-th block of the chain leads to the next one; the last one to none. */
  ghost predicate ChainUpAt(blocks: Blocks, chain: seq<nat>, i: nat)
    requires i < |chain|
  {
    && chain[i] in blocks
    && if i + 1 < |chain| then Leads(blocks, chain[i], chain[i + 1]) else blocks[chain[i]].next == 0
  }

  ghost predicate ChainUp(blocks: Blocks, chain: seq<nat>)
  {
    && chain != [] && chain[0] == 0 && 0 in blocks && blocks[0].txSeq == 0
    && forall i | 0 <= i < |chain| :: ChainUpAt(blocks, chain, i)
  }

  /** A block outside the chain leads on, and precedes all but the end of the chain. */
  ghost predicate StrayOk(blocks: Blocks, chain: seq<nat>, from: nat, x: nat)
    requires from < |chain| && chain[from] in blocks
  {
    x != 0 && x !in chain && Up(blocks, x) && blocks[x].txSeq < blocks[chain[from]].txSeq
  }

  function Strays(w: World): seq<nat> { w.orphans + w.lost }

  ghost predicate InWorld(w: World, b: nat) { b in w.chain || b in Strays(w) }

  /** The orphan list is in order, and no block of the chain is linked into it. */
  ghost predicate OrphanListOk(w: World)
  {
    Listed(w.links, w.orphans) && forall x | x in w.chain && x != 0 :: x in w.links && w.links[x] == 0
  }

  ghost predicate WorldOk(w: World)
  {
    && ChainUp(w.blocks, w.chain) && w.from < |w.chain| && w.chain[w.from] in w.blocks
    && (forall x {:trigger StrayOk(w.blocks, w.chain, w.from, x)} | x in Strays(w) ::
          StrayOk(w.blocks, w.chain, w.from, x))
    && (forall b {:trigger InWorld(w, b)} | b in w.blocks :: InWorld(w, b))
    && (forall t | 0 <= t < |w.pins| :: w.pins[t] != 0 && w.pins[t] in w.blocks)
    && OrphanListOk(w)
  }

  /* Chains. */

  lemma {:induction false} SeqsGrow(blocks: Blocks, chain: seq<nat>, i: nat, k: nat)
    requires ChainUp(blocks, chain) && i < k < |chain|
    ensures chain[i] in blocks && chain[k] in blocks
    ensures blocks[chain[i]].txSeq < blocks[chain[k]].txSeq && chain[i] != chain[k]
  {
    assert ChainUpAt(blocks, chain, k - 1);
    if i < k - 1 { SeqsGrow(blocks, chain, i, k - 1); }
  }

  /** The chain of `TxLog` is such a chain. */
  lemma FromTxLog(blocks: Blocks, chain: seq<nat>, links: Links, pins: seq<nat>)
    requires IsChain(blocks, chain) && (forall b | b in blocks :: b in chain)
    requires forall t | 0 <= t < |pins| :: pins[t] != 0 && pins[t] in blocks
    requires forall x | x in chain :: x in links && links[x] == 0
    ensures WorldOk(World(blocks, chain, [], [], links, 0, pins))
  {
    var w := World(blocks, chain, [], [], links, 0, pins);
    forall b | b in blocks ensures InWorld(w, b) {}
    forall i | 0 <= i < |chain| ensures ChainUpAt(blocks, chain, i) {
      assert NodeOk(blocks, chain[i], i);
      if i + 1 < |chain| { assert NodeOk(blocks, chain[i + 1], i + 1) && LinkOk(blocks, chain[i], chain[i + 1]); }
    }
    assert ChainUpAt(blocks, chain, 0) && StopOk(links, [], 0);
  }

  /** Whatever is below the tail leads on. */
  lemma UpIsLinksOk(w: World, n: nat)
    requires WorldOk(w) && n < |w.chain|
    ensures LinksOk(w.blocks, w.chain[n])
  {
    var tail := w.chain[n];
    assert ChainUpAt(w.blocks, w.chain, n);
    forall b | b in w.blocks && Below(w.blocks, b, tail) ensures Up(w.blocks, b) {
      assert InWorld(w, b);
      if b in w.chain {
        var i :| 0 <= i < |w.chain| && w.chain[i] == b;
        if n < i { SeqsGrow(w.blocks, w.chain, n, i); }
        assert ChainUpAt(w.blocks, w.chain, i);
      } else {
        assert StrayOk(w.blocks, w.chain, w.from, b);
      }
    }
  }

  /* Where threads come. */

  /** `k` links from `b` on do not lead to the end. */
  ghost predicate NotEnded(blocks: Blocks, b: nat, k: nat) { forall j | 0 <= j <= k :: Hop(blocks, b, j) != 0 }

  ghost predicate ComesBy(blocks: Blocks, b: nat, x: nat, k: nat)
  {
    NotEnded(blocks, b, k) && Hop(blocks, b, k) == x
  }

  /** Some thread comes to `x` from its pin. */
  ghost predicate Comes(blocks: Blocks, pins: seq<nat>, x: nat)
  {
    exists t, k: nat :: 0 <= t < |pins| && ComesBy(blocks, pins[t], x, k)
  }

  /* Steps. */

  /** The blocks with the new list in front of `tail`. */
  ghost predicate WithNewList(blocks: Blocks, blocks': Blocks, news: seq<nat>, tail: nat)
  {
    && news != [] && 0 in blocks && 0 !in news
    && (forall i | 0 <= i < |news| :: news[i] !in blocks && NewLink(blocks', news, tail, i))
    && (forall i, k | 0 <= i < k < |news| :: news[i] != news[k])
    && (forall b | b in blocks && b != 0 :: b in blocks' && blocks'[b] == blocks[b])
    && 0 in blocks' && blocks'[0] == blocks[0].(next := news[0])
    && (forall b | b in blocks' :: b in blocks || b in news)
  }

  ghost predicate NewLink(blocks: Blocks, news: seq<nat>, tail: nat, i: nat)
  {
    && i < |news| && news[i] in blocks && blocks[news[i]].txSeq == i + 1
    && blocks[news[i]].next == if i + 1 < |news| then news[i + 1] else tail
  }

  /** The blocks that the new list does not lead to. */
  function Superseded(w: World, n: nat): seq<nat>
    requires 0 < n <= |w.chain|
  {
    Strays(w) + w.chain[1..n]
  }

  function ChainAfter(w: World, n: nat, news: seq<nat>): seq<nat>
    requires n <= |w.chain|
  {
    [0] + news + w.chain[n..]
  }

  /** The collection can be made. */
  ghost predicate Collectable(w: World, n: nat, news: seq<nat>, blocks1: Blocks)
  {
    && 0 < n < |w.chain| && w.chain[n] in w.blocks && |news| < w.blocks[w.chain[n]].txSeq
    && WithNewList(w.blocks, blocks1, news, w.chain[n])
  }

  /** A block leaves the world when it is freed: it is an orphan or of the old list,
      and the scan has not found it. So does a lost block, which is never freed, when
      no thread comes to it any more. */
  ghost predicate Leaves(w: World, n: nat, blocks1: Blocks, x: nat)
    requires 0 < n < |w.chain| && w.chain[n] in blocks1
  {
    || Unpinned(blocks1, w.chain[n], w.orphans + w.chain[1..n], w.pins, x)
    || (x in w.lost && !Comes(w.blocks, w.pins, x))
  }

  /** The orphan list after the collection, and what is kept but not on it. */
  ghost predicate Sorted(w: World, w': World, n: nat, blocks1: Blocks)
    requires 0 < n < |w.chain| && w.chain[n] in blocks1
  {
    && w'.orphans == OrphansAfter(w.orphans, w.chain[1..n], PinnedSet(blocks1, w.chain[n], w.pins))
    && forall x :: x in w'.lost <==> x in Superseded(w, n) && !Leaves(w, n, blocks1, x) && x !in w'.orphans
  }

  /** Where the later of the old and the new tail is in the new chain. */
  function FromAfter(w: World, n: nat, news: seq<nat>): nat { |news| + 1 + if n < w.from then w.from - n else 0 }

  /** The links of the orphan list, those of the new blocks included. */
  ghost predicate Relinked(w: World, w': World, n: nat, news: seq<nat>)
    requires 0 < n < |w.chain|
  {
    && Listed(w'.links, w'.orphans) && (forall i | 0 <= i < |news| :: news[i] in w'.links && w'.links[news[i]] == 0)
    && forall x | x in w.links && x != 0 && x !in w.orphans && x !in w.chain[1..n] && x !in news ::
         x in w'.links && w'.links[x] == w.links[x]
  }

  /** A collection: the new list is linked in, then what is not pinned is freed. */
  ghost predicate Collected(w: World, w': World, n: nat, news: seq<nat>, blocks1: Blocks)
  {
    && Collectable(w, n, news, blocks1) && w.chain[n] in blocks1
    && (forall b :: b in w'.blocks <==> b in blocks1 && !Leaves(w, n, blocks1, b))
    && (forall b | b in w'.blocks :: w'.blocks[b] == blocks1[b])
    && Sorted(w, w', n, blocks1) && Relinked(w, w', n, news)
    && w'.chain == ChainAfter(w, n, news) && w'.from == FromAfter(w, n, news) && w'.pins == w.pins
  }

  ghost predicate Step(w: World, a: Action, w': World)
  {
    match a
    case Extend(b) =>
      && b != 0 && b !in w.blocks && w.chain != [] && w.chain[|w.chain| - 1] in w.blocks
      && var last := w.chain[|w.chain| - 1];
         var added := TxBlock([], 0, w.blocks[last].txSeq + 1);
         w' == w.(blocks := w.blocks[last := w.blocks[last].(next := b)][b := added], chain := w.chain + [b],
                  links := w.links[b := 0])
    case Pin(t, i) => t < |w.pins| && 0 < i < |w.chain| && w' == w.(pins := w.pins[t := w.chain[i]])
    case Move(t) =>
      && t < |w.pins| && w.pins[t] in w.blocks && w.blocks[w.pins[t]].next != 0
      && w' == w.(pins := w.pins[t := w.blocks[w.pins[t]].next])
    case Collect(n, news) => exists blocks1: Blocks :: Collected(w, w', n, news, blocks1)
  }

  /* Every step keeps the world in order. */

  lemma ExtendStep(w: World, b: nat, w': World)
    requires WorldOk(w) && Step(w, Extend(b), w')
    ensures WorldOk(w')
  {
    ExtendChain(w, b, w');
    forall c | c in w'.blocks ensures InWorld(w', c) { assert c in w.blocks ==> InWorld(w, c); }
    forall x | x in Strays(w') ensures StrayOk(w'.blocks, w'.chain, w'.from, x) { ExtendStray(w, b, w', x); }
    assert b in w.orphans ==> StrayOk(w.blocks, w.chain, w.from, b);
    ExtendList(w.links, b, w.orphans);
  }

  lemma ExtendList(links: Links, b: nat, os: seq<nat>)
    requires Listed(links, os) && b != 0 && b !in os
    ensures Listed(links[b := 0], os)
  {
    var links' := links[b := 0];
    forall a | 0 <= a <= |os| ensures StopOk(links', os, a) { assert StopOk(links, os, a); }
  }

  lemma ExtendKeeps(w: World, b: nat, w': World, x: nat)
    requires WorldOk(w) && Step(w, Extend(b), w') && Up(w.blocks, x) && x != w.chain[|w.chain| - 1]
    ensures Leads(w'.blocks, x, w.blocks[x].next) && w'.blocks[x] == w.blocks[x]
  {
  }

  lemma ExtendStray(w: World, b: nat, w': World, x: nat)
    requires WorldOk(w) && Step(w, Extend(b), w') && x in Strays(w)
    ensures w'.from < |w'.chain| && w'.chain[w'.from] in w'.blocks && StrayOk(w'.blocks, w'.chain, w'.from, x)
  {
    assert StrayOk(w.blocks, w.chain, w.from, x) && w.chain[|w.chain| - 1] in w.chain;
    ExtendKeeps(w, b, w', x);
  }

  lemma ExtendChain(w: World, b: nat, w': World)
    requires WorldOk(w) && Step(w, Extend(b), w')
    ensures ChainUp(w'.blocks, w'.chain)
  {
    var n := |w.chain|;
    forall i | 0 <= i < |w'.chain| ensures ChainUpAt(w'.blocks, w'.chain, i) {
      if i < n { assert ChainUpAt(w.blocks, w.chain, i); }
      if i + 1 < n {
        SeqsGrow(w.blocks, w.chain, i, n - 1);
        ExtendKeeps(w, b, w', w.chain[i]);
      }
    }
  }

  lemma MoveStep(w: World, t: nat, w': World)
    requires WorldOk(w) && Step(w, Move(t), w')
    ensures WorldOk(w')
  {
    NextIn(w, w.pins[t]);
    forall c | c in w'.blocks ensures InWorld(w', c) { assert InWorld(w, c); }
    forall x | x in Strays(w') ensures StrayOk(w'.blocks, w'.chain, w'.from, x) {
      assert StrayOk(w.blocks, w.chain, w.from, x);
    }
  }

  lemma PinStep(w: World, t: nat, i: nat, w': World)
    requires WorldOk(w) && Step(w, Pin(t, i), w')
    ensures WorldOk(w')
  {
    SeqsGrow(w.blocks, w.chain, 0, i);
    forall c | c in w'.blocks ensures InWorld(w', c) { assert InWorld(w, c); }
    forall x | x in Strays(w') ensures StrayOk(w'.blocks, w'.chain, w'.from, x) {
      assert StrayOk(w.blocks, w.chain, w.from, x);
    }
  }

  lemma TailIsKept(w: World, n: nat, news: seq<nat>, blocks1: Blocks)
    requires WorldOk(w) && Collectable(w, n, news, blocks1)
    ensures w.chain[n] != 0 && w.chain[n] in blocks1 && blocks1[w.chain[n]] == w.blocks[w.chain[n]]
  {
    SeqsGrow(w.blocks, w.chain, 0, n);
  }

  /** A block of the old list is below the tail and leads to the next one. */
  lemma ListBelow(w: World, n: nat, news: seq<nat>, blocks1: Blocks, i: nat)
    requires WorldOk(w) && Collectable(w, n, news, blocks1) && 0 < i < n
    ensures w.chain[i] != 0 && ListAt(blocks1, w.chain, n, i)
  {
    TailIsKept(w, n, news, blocks1);
    SeqsGrow(w.blocks, w.chain, 0, i);
    SeqsGrow(w.blocks, w.chain, i, n);
    assert ChainUpAt(w.blocks, w.chain, i);
    KeptUp(w, blocks1, news, w.chain[n], w.chain[i]);
  }

  /** The `i`-th block of the chain, as one of the list before `chain[n]`. */
  ghost predicate ListAt(blocks: Blocks, chain: seq<nat>, n: nat, i: nat)
    requires i < n < |chain|
  {
    && chain[n] in blocks && chain[i] in blocks && Below(blocks, chain[i], chain[n])
    && Leads(blocks, chain[i], chain[i + 1])
  }

  lemma OldListIs(blocks: Blocks, chain: seq<nat>, n: nat)
    requires 0 < n < |chain| && chain[n] in blocks && forall i | 0 < i < n :: ListAt(blocks, chain, n, i)
    ensures OldList(blocks, chain[1], chain[n], chain[1..n])
  {
    var list := chain[1..n];
    forall i | 0 <= i < |list| ensures list[i] in blocks && Below(blocks, list[i], chain[n]) {
      assert ListAt(blocks, chain, n, i + 1);
    }
    forall i, k | 0 <= i && k == i + 1 && k < |list| ensures blocks[list[i]].next == list[k] {
      assert ListAt(blocks, chain, n, i + 1);
    }
    if list != [] { assert ListAt(blocks, chain, n, n - 1); }
  }

  lemma OldListOk(w: World, n: nat, news: seq<nat>, blocks1: Blocks)
    requires WorldOk(w) && Collectable(w, n, news, blocks1)
    ensures w.chain[n] in blocks1 && w.chain[1] in blocks1
    ensures OldList(blocks1, w.chain[1], w.chain[n], w.chain[1..n])
  {
    TailIsKept(w, n, news, blocks1);
    forall i | 0 < i < n ensures ListAt(blocks1, w.chain, n, i) { ListBelow(w, n, news, blocks1, i); }
    OldListIs(blocks1, w.chain, n);
    if 1 < n { assert ListAt(blocks1, w.chain, n, 1); }
  }

  lemma StrayIn(w: World, n: nat, news: seq<nat>, blocks1: Blocks, x: nat)
    requires WorldOk(w) && Collectable(w, n, news, blocks1) && x in Strays(w)
    ensures x != 0 && x in blocks1 && Up(blocks1, x) && x !in w.chain && x in w.blocks
  {
    assert StrayOk(w.blocks, w.chain, w.from, x);
    KeptUp(w, blocks1, news, w.chain[n], x);
  }

  /** What may leave leads on. */
  lemma SupersededIn(w: World, n: nat, news: seq<nat>, blocks1: Blocks, x: nat)
    requires WorldOk(w) && Collectable(w, n, news, blocks1) && x in Superseded(w, n)
    ensures x != 0 && x in blocks1 && Up(blocks1, x) && x !in w.chain[n..] && x in w.blocks
  {
    if x in Strays(w) {
      StrayIn(w, n, news, blocks1, x);
      NotInSuffix(w.chain, n, x);
    } else {
      MemberBelow(w, n, news, blocks1, x);
    }
  }

  /** The old list is below the tail. */
  lemma MemberBelow(w: World, n: nat, news: seq<nat>, blocks1: Blocks, x: nat)
    requires WorldOk(w) && Collectable(w, n, news, blocks1) && x in w.chain[1..n]
    ensures x != 0 && w.chain[n] in blocks1 && x in blocks1 && Below(blocks1, x, w.chain[n]) && Up(blocks1, x)
    ensures x !in w.chain[n..] && x in w.blocks
  {
    var i :| 0 < i < n && w.chain[i] == x;
    ListBelow(w, n, news, blocks1, i);
    ListApart(w, n, i);
  }

  lemma NotInSuffix(chain: seq<nat>, n: nat, x: nat)
    requires n <= |chain| && x !in chain
    ensures x !in chain[n..]
  {
  }

  lemma ListApart(w: World, n: nat, i: nat)
    requires WorldOk(w) && i < n < |w.chain|
    ensures w.chain[i] !in w.chain[n..] && w.chain[i] in w.blocks
  {
    SeqsGrow(w.blocks, w.chain, i, n);
    forall k | n <= k < |w.chain| ensures w.chain[k] != w.chain[i] { SeqsGrow(w.blocks, w.chain, i, k); }
  }

  /** After linking in the new list, the requirements of recycling are met. */
  lemma ReadyToRecycle(w: World, n: nat, news: seq<nat>, blocks1: Blocks)
    requires WorldOk(w) && Collectable(w, n, news, blocks1)
    ensures w.chain[n] in blocks1 && w.chain[n] != 0 && w.chain[1] in blocks1
    ensures LinksOk(blocks1, w.chain[n]) && OldList(blocks1, w.chain[1], w.chain[n], w.chain[1..n])
    ensures forall t | 0 <= t < |w.pins| :: w.pins[t] != 0 && w.pins[t] in blocks1
    ensures Listed(w.links, w.orphans) && Apart(w.links, w.chain[1..n])
    ensures forall x | x in w.chain[1..n] :: x !in w.orphans
  {
    TailIsKept(w, n, news, blocks1);
    OldListOk(w, n, news, blocks1);
    NewIsLinksOk(w, n, news, blocks1);
    ListIsApart(w, n);
  }

  lemma ListIsApart(w: World, n: nat)
    requires WorldOk(w) && 0 < n < |w.chain|
    ensures Apart(w.links, w.chain[1..n]) && forall x | x in w.chain[1..n] :: x !in w.orphans
  {
    var list := w.chain[1..n];
    forall i, k | 0 <= i < k < |list| ensures list[i] != list[k] { SeqsGrow(w.blocks, w.chain, i + 1, k + 1); }
    forall i | 0 <= i < |list| ensures list[i] != 0 { SeqsGrow(w.blocks, w.chain, 0, i + 1); }
    forall x | x in list ensures x in w.chain && x !in w.orphans {
      assert x in w.orphans ==> StrayOk(w.blocks, w.chain, w.from, x);
    }
  }

  lemma NewIsLinksOk(w: World, n: nat, news: seq<nat>, blocks1: Blocks)
    requires WorldOk(w) && Collectable(w, n, news, blocks1)
    ensures w.chain[n] in blocks1 && LinksOk(blocks1, w.chain[n])
  {
    var tail := w.chain[n];
    SeqsGrow(w.blocks, w.chain, 0, n);
    UpIsLinksOk(w, n);
    forall b | b in blocks1 && Below(blocks1, b, tail) ensures Up(blocks1, b) {
      if b in news {
        var i :| 0 <= i < |news| && news[i] == b;
        NewUp(w.blocks, blocks1, news, tail, i);
      } else if b == 0 {
        NewUp(w.blocks, blocks1, news, tail, 0);
      } else {
        assert b in w.blocks && Below(w.blocks, b, tail) && Up(w.blocks, b);
        KeptUp(w, blocks1, news, tail, b);
      }
    }
  }

  /** The meta block leads to the new list, which leads to the tail. */
  lemma NewUp(blocks: Blocks, blocks1: Blocks, news: seq<nat>, tail: nat, i: nat)
    requires WithNewList(blocks, blocks1, news, tail) && i < |news| && blocks[0].txSeq == 0
    requires tail in blocks && tail != 0 && |news| < blocks[tail].txSeq
    ensures Leads(blocks1, news[i], if i + 1 < |news| then news[i + 1] else tail) && Leads(blocks1, 0, news[0])
  {
    assert NewLink(blocks1, news, tail, i) && NewLink(blocks1, news, tail, 0);
    if i + 1 < |news| { assert NewLink(blocks1, news, tail, i + 1); }
  }

  lemma KeptUp(w: World, blocks1: Blocks, news: seq<nat>, tail: nat, b: nat)
    requires WithNewList(w.blocks, blocks1, news, tail) && b != 0 && Up(w.blocks, b)
    ensures Leads(blocks1, b, w.blocks[b].next)
  {
  }

  lemma OrphanIsOld(w: World, n: nat, news: seq<nat>, blocks1: Blocks, x: nat)
    requires WorldOk(w) && Collectable(w, n, news, blocks1) && w.chain[n] in blocks1
    requires x in OrphansAfter(w.orphans, w.chain[1..n], PinnedSet(blocks1, w.chain[n], w.pins))
    ensures x !in news
  {
    var pinned := PinnedSet(blocks1, w.chain[n], w.pins);
    KeepIn(w.orphans, pinned, x);
    KeepIn(w.chain[1..n], pinned, x);
    SupersededIn(w, n, news, blocks1, x);
  }

  /** What `Recycle` returns makes a collection. The blocks that leave the world are
      the freed ones and lost ones to which no thread comes. */
  lemma RecycleIsStep(w: World, w': World, n: nat, news: seq<nat>, blocks1: Blocks, r: Recycled)
    requires WorldOk(w) && Collectable(w, n, news, blocks1) && w.chain[n] in blocks1
    requires FreesOnce(r.freed, blocks1, w.chain[n], w.orphans + w.chain[1..n], w.pins)
    requires Listed(r.links, OrphansAfter(w.orphans, w.chain[1..n], PinnedSet(blocks1, w.chain[n], w.pins)))
    requires LinksKept(w.links, r.links, w.orphans + w.chain[1..n])
    requires Sorted(w, w', n, blocks1) && w'.links == r.links + map x | x in news :: 0
    requires w'.blocks == map b | b in blocks1 && !Leaves(w, n, blocks1, b) :: blocks1[b]
    requires w'.chain == ChainAfter(w, n, news) && w'.from == FromAfter(w, n, news) && w'.pins == w.pins
    ensures Collected(w, w', n, news, blocks1)
    ensures forall b | Leaves(w, n, blocks1, b) :: b in r.freed || b in w.lost
  {
    forall x | x in w'.orphans ensures x !in news { OrphanIsOld(w, n, news, blocks1, x); }
    forall b | Leaves(w, n, blocks1, b) ensures b in r.freed || b in w.lost {
      FreedIff(r.freed, blocks1, w.chain[n], w.orphans + w.chain[1..n], w.pins, b);
    }
    forall a | 0 <= a <= |w'.orphans| ensures StopOk(w'.links, w'.orphans, a) {
      assert StopOk(r.links, w'.orphans, a);
    }
  }

  /* What a scan finds. */

  lemma {:induction false} HopIn(w: World, b: nat, k: nat)
    requires WorldOk(w) && b in w.blocks && NotEnded(w.blocks, b, k)
    ensures Hop(w.blocks, b, k) in w.blocks
  {
    if k > 0 {
      HopIn(w, b, k - 1);
      var c := Hop(w.blocks, b, k - 1);
      assert Hop(w.blocks, b, k) == w.blocks[c].next;
      NextIn(w, c);
    }
  }

  lemma NextIn(w: World, c: nat)
    requires WorldOk(w) && c in w.blocks && w.blocks[c].next != 0
    ensures w.blocks[c].next in w.blocks && w.blocks[w.blocks[c].next].txSeq > w.blocks[c].txSeq
  {
    assert InWorld(w, c);
    if c in w.chain {
      var i :| 0 <= i < |w.chain| && w.chain[i] == c;
      assert ChainUpAt(w.blocks, w.chain, i);
    } else {
      assert StrayOk(w.blocks, w.chain, w.from, c);
    }
  }

  /** The orphans to which some thread comes precede the tail. */
  ghost predicate TailCovers(w: World, n: nat)
    requires n < |w.chain| && w.chain[n] in w.blocks
  {
    forall x | x in w.orphans && Comes(w.blocks, w.pins, x) :: x in w.blocks && Below(w.blocks, x, w.chain[n])
  }

  /** That is so if the tail is not before that of an earlier collection. */
  lemma LaterTailCovers(w: World, n: nat)
    requires WorldOk(w) && w.from <= n < |w.chain|
    ensures w.chain[n] in w.blocks && TailCovers(w, n)
  {
    assert ChainUpAt(w.blocks, w.chain, n);
    if w.from < n { SeqsGrow(w.blocks, w.chain, w.from, n); }
    forall x | x in w.orphans ensures x in w.blocks && Below(w.blocks, x, w.chain[n]) {
      assert x in Strays(w) && StrayOk(w.blocks, w.chain, w.from, x);
    }
  }

  lemma {:induction false} Rises(w: World, b: nat, j: nat, k: nat)
    requires WorldOk(w) && b in w.blocks && NotEnded(w.blocks, b, k) && j < k
    ensures Hop(w.blocks, b, j) in w.blocks && Hop(w.blocks, b, k) in w.blocks
    ensures w.blocks[Hop(w.blocks, b, j)].txSeq < w.blocks[Hop(w.blocks, b, k)].txSeq
  {
    HopIn(w, b, k - 1);
    var c := Hop(w.blocks, b, k - 1);
    assert Hop(w.blocks, b, k) == w.blocks[c].next;
    NextIn(w, c);
    if j < k - 1 { Rises(w, b, j, k - 1); }
  }

  /** The new list does not change where a thread comes. */
  lemma {:induction false} HopsStay(w: World, n: nat, news: seq<nat>, blocks1: Blocks, b: nat, k: nat)
    requires WorldOk(w) && Collectable(w, n, news, blocks1) && b != 0 && b in w.blocks
    ensures NotEnded(w.blocks, b, k) <==> NotEnded(blocks1, b, k)
    ensures NotEnded(w.blocks, b, k) ==> Hop(blocks1, b, k) == Hop(w.blocks, b, k) && Hop(w.blocks, b, k) in w.blocks
  {
    if k == 0 {
      assert Hop(w.blocks, b, 0) == b && Hop(blocks1, b, 0) == b;
    } else {
      HopsStay(w, n, news, blocks1, b, k - 1);
      NotEndedBefore(w.blocks, b, k);
      NotEndedBefore(blocks1, b, k);
      if NotEnded(w.blocks, b, k - 1) {
        var c := Hop(w.blocks, b, k - 1);
        assert c != 0 && blocks1[c] == w.blocks[c];
        assert Hop(w.blocks, b, k) == w.blocks[c].next == Hop(blocks1, b, k);
        if w.blocks[c].next != 0 { NextIn(w, c); }
      }
    }
  }

  lemma NotEndedBefore(blocks: Blocks, b: nat, k: nat)
    requires k > 0
    ensures NotEnded(blocks, b, k) <==> NotEnded(blocks, b, k - 1) && Hop(blocks, b, k) != 0
  {
  }

  lemma ComesStays(w: World, n: nat, news: seq<nat>, blocks1: Blocks, x: nat)
    requires WorldOk(w) && Collectable(w, n, news, blocks1)
    ensures Comes(blocks1, w.pins, x) <==> Comes(w.blocks, w.pins, x)
  {
    if Comes(blocks1, w.pins, x) {
      var t, k: nat :| 0 <= t < |w.pins| && ComesBy(blocks1, w.pins[t], x, k);
      HopsStay(w, n, news, blocks1, w.pins[t], k);
      assert ComesBy(w.blocks, w.pins[t], x, k);
    }
    if Comes(w.blocks, w.pins, x) {
      var t, k: nat :| 0 <= t < |w.pins| && ComesBy(w.blocks, w.pins[t], x, k);
      HopsStay(w, n, news, blocks1, w.pins[t], k);
      assert ComesBy(blocks1, w.pins[t], x, k);
    }
  }

  /** The scan finds exactly the blocks below the tail to which some thread comes. */
  lemma ReachedIff(w: World, n: nat, news: seq<nat>, blocks1: Blocks, x: nat)
    requires WorldOk(w) && Collectable(w, n, news, blocks1)
    ensures w.chain[n] in blocks1
    ensures ReachedByPin(blocks1, w.chain[n], w.pins, x) <==>
              Comes(w.blocks, w.pins, x) && x in blocks1 && Below(blocks1, x, w.chain[n])
  {
    TailIsKept(w, n, news, blocks1);
    ComesStays(w, n, news, blocks1, x);
    if ReachedByPin(blocks1, w.chain[n], w.pins, x) {
      var t, k: nat :| 0 <= t < |w.pins| && Reaches(blocks1, w.chain[n], w.pins[t], x, k);
      ReachesComes(w, n, news, blocks1, w.pins[t], x, k);
    }
    if Comes(w.blocks, w.pins, x) && x in blocks1 && Below(blocks1, x, w.chain[n]) {
      var t, k: nat :| 0 <= t < |w.pins| && ComesBy(w.blocks, w.pins[t], x, k);
      ComesReaches(w, n, news, blocks1, w.pins[t], x, k);
    }
  }

  lemma ReachesComes(w: World, n: nat, news: seq<nat>, blocks1: Blocks, b: nat, x: nat, k: nat)
    requires WorldOk(w) && Collectable(w, n, news, blocks1) && b != 0 && w.chain[n] in blocks1
    requires Reaches(blocks1, w.chain[n], b, x, k)
    ensures ComesBy(blocks1, b, x, k) && x in blocks1 && Below(blocks1, x, w.chain[n])
  {
    NewIsLinksOk(w, n, news, blocks1);
    assert Hop(blocks1, b, k) == x;
    forall j | 0 <= j <= k ensures Hop(blocks1, b, j) != 0 {
      if j > 0 { assert Hop(blocks1, b, j - 1) in blocks1 && Below(blocks1, Hop(blocks1, b, j - 1), w.chain[n]); }
    }
  }

  lemma ComesReaches(w: World, n: nat, news: seq<nat>, blocks1: Blocks, b: nat, x: nat, k: nat)
    requires WorldOk(w) && Collectable(w, n, news, blocks1) && b != 0 && b in w.blocks && w.chain[n] in blocks1
    requires ComesBy(w.blocks, b, x, k) && x in blocks1 && Below(blocks1, x, w.chain[n])
    ensures Reaches(blocks1, w.chain[n], b, x, k)
  {
    HopsStay(w, n, news, blocks1, b, k);
    forall j | 0 <= j <= k
      ensures Hop(blocks1, b, j) in blocks1 && Below(blocks1, Hop(blocks1, b, j), w.chain[n])
    {
      HopsStay(w, n, news, blocks1, b, j);
      if j < k { Rises(w, b, j, k); }
    }
  }

  /* Collecting. */

  /** What is kept outside the chain is what does not leave. */
  lemma KeptIff(w: World, w': World, n: nat, news: seq<nat>, blocks1: Blocks, x: nat)
    requires WorldOk(w) && Collected(w, w', n, news, blocks1)
    ensures x in Strays(w') <==> x in Superseded(w, n) && !Leaves(w, n, blocks1, x)
  {
    var pinned, list := PinnedSet(blocks1, w.chain[n], w.pins), w.chain[1..n];
    KeepIn(w.orphans, pinned, x);
    KeepIn(list, pinned, x);
    ReachedIn(blocks1, w.chain[n], w.pins, x);
    ReachedIff(w, n, news, blocks1, x);
  }

  /** Some thread comes to every block that is kept outside the chain. */
  lemma KeptComes(w: World, n: nat, news: seq<nat>, blocks1: Blocks, x: nat)
    requires WorldOk(w) && Collectable(w, n, news, blocks1) && w.chain[n] in blocks1
    requires x in Superseded(w, n) && !Leaves(w, n, blocks1, x)
    ensures Comes(w.blocks, w.pins, x)
    ensures x !in w.lost ==> x in blocks1 && Below(blocks1, x, w.chain[n])
  {
    ReachedIff(w, n, news, blocks1, x);
  }

  lemma StayedOrLeft(w: World, w': World, n: nat, news: seq<nat>, blocks1: Blocks, b: nat)
    requires Collected(w, w', n, news, blocks1) && b in blocks1 && !Leaves(w, n, blocks1, b)
    ensures b in w'.blocks && w'.blocks[b] == blocks1[b]
  {
  }

  /** If the tail covers the orphans, a block to which some thread comes stays. */
  lemma ComesIsKept(w: World, w': World, n: nat, news: seq<nat>, blocks1: Blocks, b: nat)
    requires WorldOk(w) && Collected(w, w', n, news, blocks1) && TailCovers(w, n)
    requires b in blocks1 && Comes(w.blocks, w.pins, b)
    ensures b in w'.blocks && w'.blocks[b] == blocks1[b]
  {
    ReachedIff(w, n, news, blocks1, b);
    if b in w.orphans {
      assert b in w.blocks && Below(w.blocks, b, w.chain[n]);
      TailIsKept(w, n, news, blocks1);
      StrayIn(w, n, news, blocks1, b);
    } else if b in w.chain[1..n] {
      MemberBelow(w, n, news, blocks1, b);
    }
    StayedOrLeft(w, w', n, news, blocks1, b);
  }

  lemma ComesNext(w: World, x: nat)
    requires WorldOk(w) && Comes(w.blocks, w.pins, x) && x in w.blocks && w.blocks[x].next != 0
    ensures Comes(w.blocks, w.pins, w.blocks[x].next)
  {
    var t, k: nat :| 0 <= t < |w.pins| && ComesBy(w.blocks, w.pins[t], x, k);
    assert Hop(w.blocks, w.pins[t], k + 1) == w.blocks[x].next;
    NotEndedBefore(w.blocks, w.pins[t], k + 1);
    assert ComesBy(w.blocks, w.pins[t], w.blocks[x].next, k + 1);
  }

  /** What is kept stays as it is, and so does what it leads to. */
  lemma KeptBlock(w: World, w': World, n: nat, news: seq<nat>, blocks1: Blocks, x: nat)
    requires WorldOk(w) && Collected(w, w', n, news, blocks1) && TailCovers(w, n) && x in Strays(w')
    ensures x in blocks1 && x in w'.blocks && w'.blocks[x] == blocks1[x] && Up(w'.blocks, x)
  {
    KeptIff(w, w', n, news, blocks1, x);
    KeptComes(w, n, news, blocks1, x);
    SupersededIn(w, n, news, blocks1, x);
    ComesIsKept(w, w', n, news, blocks1, x);
    ComesNext(w, x);
    ComesIsKept(w, w', n, news, blocks1, blocks1[x].next);
  }

  /** A pinned block stays. */
  lemma PinIsKept(w: World, w': World, n: nat, news: seq<nat>, blocks1: Blocks, t: nat)
    requires WorldOk(w) && Collected(w, w', n, news, blocks1) && TailCovers(w, n) && t < |w.pins|
    ensures w.pins[t] in w'.blocks
  {
    assert Hop(w.blocks, w.pins[t], 0) == w.pins[t];
    assert ComesBy(w.blocks, w.pins[t], w.pins[t], 0);
    ComesIsKept(w, w', n, news, blocks1, w.pins[t]);
  }

  /** The new chain, block by block. */
  lemma AfterAt(w: World, n: nat, news: seq<nat>, i: nat)
    requires n <= |w.chain| && i < |ChainAfter(w, n, news)|
    ensures |ChainAfter(w, n, news)| == 1 + |news| + |w.chain| - n
    ensures ChainAfter(w, n, news)[i]
         == if i == 0 then 0 else if i <= |news| then news[i - 1] else w.chain[i - |news| - 1 + n]
  {
  }

  lemma AfterLeads(w: World, n: nat, news: seq<nat>, blocks1: Blocks, i: nat)
    requires WorldOk(w) && Collectable(w, n, news, blocks1) && i < |ChainAfter(w, n, news)|
    ensures ChainUpAt(blocks1, ChainAfter(w, n, news), i)
  {
    AfterAt(w, n, news, i);
    if i <= |news| {
      AfterNew(w, n, news, blocks1, i);
    } else {
      var k := i - |news| - 1 + n;
      OldLeads(w, n, news, blocks1, k);
      AfterOld(w, n, news, blocks1, i, k);
    }
  }

  /** The meta block and the new list. */
  lemma AfterNew(w: World, n: nat, news: seq<nat>, blocks1: Blocks, i: nat)
    requires WorldOk(w) && Collectable(w, n, news, blocks1) && i <= |news|
    ensures ChainUpAt(blocks1, ChainAfter(w, n, news), i)
  {
    TailIsKept(w, n, news, blocks1);
    NewUp(w.blocks, blocks1, news, w.chain[n], if i == 0 then 0 else i - 1);
    AfterAt(w, n, news, i);
    AfterAt(w, n, news, i + 1);
  }

  lemma AfterOld(w: World, n: nat, news: seq<nat>, blocks1: Blocks, i: nat, k: nat)
    requires n <= k < |w.chain| && k == i - |news| - 1 + n && |news| < i < |ChainAfter(w, n, news)|
    requires ChainUpAt(blocks1, w.chain, k)
    ensures ChainUpAt(blocks1, ChainAfter(w, n, news), i)
  {
    AfterAt(w, n, news, i);
    if k + 1 < |w.chain| { AfterAt(w, n, news, i + 1); }
  }

  /** From the tail on the chain is as it was. */
  lemma OldLeads(w: World, n: nat, news: seq<nat>, blocks1: Blocks, k: nat)
    requires WorldOk(w) && Collectable(w, n, news, blocks1) && n <= k < |w.chain|
    ensures ChainUpAt(blocks1, w.chain, k)
  {
    SeqsGrow(w.blocks, w.chain, 0, k);
    assert ChainUpAt(w.blocks, w.chain, k);
    if k + 1 < |w.chain| { KeptUp(w, blocks1, news, w.chain[n], w.chain[k]); }
  }

  lemma AfterApart(w: World, n: nat, news: seq<nat>, blocks1: Blocks, i: nat, x: nat)
    requires WorldOk(w) && Collectable(w, n, news, blocks1) && i < |ChainAfter(w, n, news)| && x in Superseded(w, n)
    ensures ChainAfter(w, n, news)[i] != x
  {
    AfterAt(w, n, news, i);
    SupersededIn(w, n, news, blocks1, x);
    if i > |news| { assert w.chain[n..][i - |news| - 1] == ChainAfter(w, n, news)[i]; }
  }

  lemma AfterNotSuperseded(w: World, n: nat, news: seq<nat>, blocks1: Blocks, i: nat)
    requires WorldOk(w) && Collectable(w, n, news, blocks1) && i < |ChainAfter(w, n, news)|
    ensures ChainAfter(w, n, news)[i] !in Superseded(w, n)
  {
    forall x | x in Superseded(w, n) ensures ChainAfter(w, n, news)[i] != x {
      AfterApart(w, n, news, blocks1, i, x);
    }
  }

  /** The new chain stays. */
  lemma ChainIsKept(w: World, w': World, n: nat, news: seq<nat>, blocks1: Blocks, i: nat)
    requires WorldOk(w) && Collected(w, w', n, news, blocks1) && i < |w'.chain|
    ensures ChainUpAt(blocks1, w'.chain, i)
    ensures w'.chain[i] in w'.blocks && w'.blocks[w'.chain[i]] == blocks1[w'.chain[i]]
  {
    AfterLeads(w, n, news, blocks1, i);
    AfterNotSuperseded(w, n, news, blocks1, i);
    StayedOrLeft(w, w', n, news, blocks1, w'.chain[i]);
  }

  lemma LeadsAfter(w: World, w': World, n: nat, news: seq<nat>, blocks1: Blocks, i: nat)
    requires WorldOk(w) && Collected(w, w', n, news, blocks1) && i < |w'.chain|
    ensures ChainUpAt(w'.blocks, w'.chain, i)
  {
    ChainIsKept(w, w', n, news, blocks1, i);
    if i + 1 < |w'.chain| { ChainIsKept(w, w', n, news, blocks1, i + 1); }
  }

  lemma ChainAfterUp(w: World, w': World, n: nat, news: seq<nat>, blocks1: Blocks)
    requires WorldOk(w) && Collected(w, w', n, news, blocks1)
    ensures ChainUp(w'.blocks, w'.chain)
  {
    forall i | 0 <= i < |w'.chain| ensures ChainUpAt(w'.blocks, w'.chain, i) {
      LeadsAfter(w, w', n, news, blocks1, i);
    }
    AfterAt(w, n, news, 0);
    ChainIsKept(w, w', n, news, blocks1, 0);
  }

  lemma FromAfterAt(w: World, n: nat, news: seq<nat>)
    requires n < |w.chain| && w.from < |w.chain|
    ensures FromAfter(w, n, news) < |ChainAfter(w, n, news)|
    ensures ChainAfter(w, n, news)[FromAfter(w, n, news)] == w.chain[Max(n, w.from)]
  {
    AfterAt(w, n, news, FromAfter(w, n, news));
  }

  /** The later of the two tails is where it was put. */
  lemma TailAfter(w: World, w': World, n: nat, news: seq<nat>, blocks1: Blocks)
    requires WorldOk(w) && Collected(w, w', n, news, blocks1)
    ensures w'.from < |w'.chain| && w'.chain[w'.from] == w.chain[Max(n, w.from)] && w'.chain[w'.from] in w'.blocks
    ensures w'.chain[w'.from] in blocks1 && w'.blocks[w'.chain[w'.from]] == blocks1[w'.chain[w'.from]]
    ensures blocks1[w'.chain[w'.from]] == w.blocks[w'.chain[w'.from]]
  {
    FromAfterAt(w, n, news);
    ChainIsKept(w, w', n, news, blocks1, w'.from);
    assert w.chain[Max(n, w.from)] in w.blocks && w.chain[Max(n, w.from)] != 0 by {
      SeqsGrow(w.blocks, w.chain, 0, Max(n, w.from));
    }
  }

  /** A block that is kept precedes it. */
  lemma KeptPrecedes(w: World, w': World, n: nat, news: seq<nat>, blocks1: Blocks, x: nat)
    requires WorldOk(w) && Collected(w, w', n, news, blocks1) && x in Superseded(w, n) && !Leaves(w, n, blocks1, x)
    ensures x in w.blocks && w.chain[Max(n, w.from)] in w.blocks
    ensures w.blocks[x].txSeq < w.blocks[w.chain[Max(n, w.from)]].txSeq
  {
    var m := Max(n, w.from);
    SupersededIn(w, n, news, blocks1, x);
    TailIsKept(w, n, news, blocks1);
    assert ChainUpAt(w.blocks, w.chain, m);
    if x in Strays(w) {
      assert StrayOk(w.blocks, w.chain, w.from, x);
      if w.from < n { SeqsGrow(w.blocks, w.chain, w.from, n); }
    } else {
      MemberBelow(w, n, news, blocks1, x);
      if n < w.from { SeqsGrow(w.blocks, w.chain, n, w.from); }
    }
  }

  lemma NotInChainAfter(w: World, n: nat, news: seq<nat>, blocks1: Blocks, x: nat)
    requires WorldOk(w) && Collectable(w, n, news, blocks1) && x in Superseded(w, n)
    ensures x !in ChainAfter(w, n, news)
  {
    forall i | 0 <= i < |ChainAfter(w, n, news)| ensures ChainAfter(w, n, news)[i] != x {
      AfterApart(w, n, news, blocks1, i, x);
    }
  }

  lemma NewStray(w: World, w': World, n: nat, news: seq<nat>, blocks1: Blocks, x: nat)
    requires WorldOk(w) && Collected(w, w', n, news, blocks1) && TailCovers(w, n) && x in Strays(w')
    ensures w'.from < |w'.chain| && w'.chain[w'.from] in w'.blocks && StrayOk(w'.blocks, w'.chain, w'.from, x)
  {
    KeptBlock(w, w', n, news, blocks1, x);
    KeptIff(w, w', n, news, blocks1, x);
    SupersededIn(w, n, news, blocks1, x);
    NotInChainAfter(w, n, news, blocks1, x);
    TailAfter(w, w', n, news, blocks1);
    KeptPrecedes(w, w', n, news, blocks1, x);
  }

  lemma Accounted(w: World, w': World, n: nat, news: seq<nat>, blocks1: Blocks, b: nat)
    requires WorldOk(w) && Collected(w, w', n, news, blocks1) && b in w'.blocks
    ensures InWorld(w', b)
  {
    KeptIff(w, w', n, news, blocks1, b);
    assert !Leaves(w, n, blocks1, b);
    assert b in w.blocks ==> InWorld(w, b);
    if b in w.chain {
      var i :| 0 <= i < |w.chain| && w.chain[i] == b;
      if i >= n { assert w.chain[n..][i - n] == b; } else if i > 0 { assert w.chain[1..n][i - 1] == b; }
    }
    assert b in news ==> b in ChainAfter(w, n, news);
  }

  /** No block of the new chain is linked into the orphan list. */
  lemma OrphanListAfter(w: World, w': World, n: nat, news: seq<nat>, blocks1: Blocks)
    requires WorldOk(w) && Collected(w, w', n, news, blocks1)
    ensures OrphanListOk(w')
  {
    forall x | x in w'.chain && x != 0 ensures x in w'.links && w'.links[x] == 0 {
      var i :| 0 <= i < |w'.chain| && w'.chain[i] == x;
      AfterAt(w, n, news, i);
      AfterNotSuperseded(w, n, news, blocks1, i);
      if x !in news { assert x in w.chain && x !in w.orphans && x !in w.chain[1..n]; }
    }
  }

  lemma CollectStep(w: World, w': World, n: nat, news: seq<nat>, blocks1: Blocks)
    requires WorldOk(w) && Collected(w, w', n, news, blocks1) && TailCovers(w, n)
    ensures WorldOk(w')
  {
    ChainAfterUp(w, w', n, news, blocks1);
    TailAfter(w, w', n, news, blocks1);
    forall x | x in Strays(w') ensures StrayOk(w'.blocks, w'.chain, w'.from, x) {
      NewStray(w, w', n, news, blocks1, x);
    }
    forall b | b in w'.blocks ensures InWorld(w', b) {
      Accounted(w, w', n, news, blocks1, b);
    }
    forall t | 0 <= t < |w'.pins| ensures w'.pins[t] != 0 && w'.pins[t] in w'.blocks {
      PinIsKept(w, w', n, news, blocks1, t);
    }
    OrphanListAfter(w, w', n, news, blocks1);
  }

  /** A collection loses track of a block that it keeps exactly if the last orphan is
      not pinned any more and something of the old list is. */
  lemma LosesIff(w: World, w': World, n: nat, news: seq<nat>, blocks1: Blocks)
    requires WorldOk(w) && Collected(w, w', n, news, blocks1)
    ensures var pinned := PinnedSet(blocks1, w.chain[n], w.pins);
            (exists x :: x in w'.lost && x !in w.lost) <==>
              !EndsOnList(w.orphans, pinned) && Keep(w.chain[1..n], pinned) != []
  {
    var pinned, list := PinnedSet(blocks1, w.chain[n], w.pins), w.chain[1..n];
    ListIsApart(w, n);
    KeptIsListedIff(w.orphans, list, pinned);
    if x: nat :| x in w'.lost && x !in w.lost {
      ReachedIn(blocks1, w.chain[n], w.pins, x);
      assert x in w.orphans + list && x in pinned && x !in w'.orphans;
    }
    if !EndsOnList(w.orphans, pinned) && Keep(list, pinned) != [] {
      LostAt(w, w', n, news, blocks1, Keep(list, pinned)[0]);
    }
  }

  lemma LostAt(w: World, w': World, n: nat, news: seq<nat>, blocks1: Blocks, x: nat)
    requires WorldOk(w) && Collected(w, w', n, news, blocks1)
    requires var pinned := PinnedSet(blocks1, w.chain[n], w.pins);
             !EndsOnList(w.orphans, pinned) && x in Keep(w.chain[1..n], pinned)
    ensures x in w'.lost && x !in w.lost
  {
    var pinned, list := PinnedSet(blocks1, w.chain[n], w.pins), w.chain[1..n];
    ListIsApart(w, n);
    ReachedIn(blocks1, w.chain[n], w.pins, x);
    KeepIn(w.orphans, pinned, x);
    KeepIn(list, pinned, x);
    assert x in w.chain && (x in w.lost ==> StrayOk(w.blocks, w.chain, w.from, x));
  }

  /* Every run. */

  ghost predicate Run(ws: seq<World>, acts: seq<Action>)
  {
    |ws| == |acts| + 1 && forall i, k | 0 <= i && k == i + 1 && k < |ws| :: Step(ws[i], acts[i], ws[k])
  }

  /** A collection whose tail covers what earlier ones have kept; any other action. */
  ghost predicate Careful(w: World, a: Action)
  {
    a.Collect? ==> a.n < |w.chain| && w.chain[a.n] in w.blocks && TailCovers(w, a.n)
  }

  lemma StepOk(w: World, a: Action, w': World)
    requires WorldOk(w) && Step(w, a, w') && Careful(w, a)
    ensures WorldOk(w')
  {
    match a
    case Extend(b) => ExtendStep(w, b, w');
    case Pin(t, i) => PinStep(w, t, i, w');
    case Move(t) => MoveStep(w, t, w');
    case Collect(n, news) =>
      var blocks1: Blocks :| Collected(w, w', n, news, blocks1);
      CollectStep(w, w', n, news, blocks1);
  }

  lemma {:induction false} RunOk(ws: seq<World>, acts: seq<Action>, i: nat)
    requires Run(ws, acts) && i < |ws| && WorldOk(ws[0]) && forall j | 0 <= j < i :: Careful(ws[j], acts[j])
    ensures WorldOk(ws[i])
  {
    if i > 0 {
      RunOk(ws, acts, i - 1);
      assert Step(ws[i - 1], acts[i - 1], ws[i]);
      StepOk(ws[i - 1], acts[i - 1], ws[i]);
    }
  }

  /** In every state of every run of such collections, a thread that follows links
      from its pin is always in a block that exists, until the end. */
  lemma NeverDangling(ws: seq<World>, acts: seq<Action>, i: nat, t: nat, k: nat)
    requires Run(ws, acts) && i < |ws| && WorldOk(ws[0]) && (forall j | 0 <= j < i :: Careful(ws[j], acts[j]))
    requires t < |ws[i].pins|
    requires NotEnded(ws[i].blocks, ws[i].pins[t], k)
    ensures Hop(ws[i].blocks, ws[i].pins[t], k) in ws[i].blocks
  {
    RunOk(ws, acts, i);
    HopIn(ws[i], ws[i].pins[t], k);
  }

  /** Such a collection does not change what a thread sees from its pin on. */
  lemma SameView(w: World, n: nat, news: seq<nat>, w': World, t: nat, k: nat)
    requires WorldOk(w) && Step(w, Collect(n, news), w') && Careful(w, Collect(n, news))
    requires t < |w.pins| && NotEnded(w.blocks, w.pins[t], k)
    ensures var b := Hop(w.blocks, w.pins[t], k);
            && Hop(w'.blocks, w'.pins[t], k) == b
            && b in w.blocks && b in w'.blocks && w'.blocks[b] == w.blocks[b]
  {
    var blocks1: Blocks :| Collected(w, w', n, news, blocks1);
    CollectStep(w, w', n, news, blocks1);
    SameHops(w, w', w.pins[t], k);
  }

  ghost predicate Same(w: World, w': World)
  {
    forall b | b in w.blocks && b in w'.blocks && b != 0 :: w'.blocks[b] == w.blocks[b]
  }

  lemma {:induction false} SameHops(w: World, w': World, b: nat, k: nat)
    requires WorldOk(w) && WorldOk(w') && Same(w, w') && b in w.blocks && b in w'.blocks && NotEnded(w.blocks, b, k)
    ensures var c := Hop(w.blocks, b, k);
            Hop(w'.blocks, b, k) == c && c != 0 && c in w.blocks && c in w'.blocks && w'.blocks[c] == w.blocks[c]
  {
    assert Hop(w.blocks, b, k) != 0;
    if k > 0 {
      SameHops(w, w', b, k - 1);
      var c := Hop(w.blocks, b, k - 1);
      assert Hop(w.blocks, b, k) == w.blocks[c].next;
      NextIn(w, c);
      NextIn(w', c);
    }
  }
}
