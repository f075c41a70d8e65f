/** When a collection frees a block that some thread still comes to: a collector
    that has opened the file anew takes the last block of the new list for the tail,
    and that can come before orphans of an earlier collection. */
module PinExact {
  import Entry
  import TxLog
  import opened Pins
  import opened Recycling
  import opened PinSafety

  /* One collection. */

  /** No block to which some thread comes leaves exactly if the tail covers the
      orphans. */
  lemma SafeIff(w: World, n: nat, news: seq<nat>, blocks1: Blocks)
    requires WorldOk(w) && Collectable(w, n, news, blocks1)
    ensures w.chain[n] in blocks1
    ensures (forall x | x in Superseded(w, n) && Comes(blocks1, w.pins, x) :: !Leaves(w, n, blocks1, x)) <==>
              TailCovers(w, n)
  {
    TailIsKept(w, n, news, blocks1);
    if TailCovers(w, n) {
      forall x | x in Superseded(w, n) && Comes(blocks1, w.pins, x) ensures !Leaves(w, n, blocks1, x) {
        ComesStays(w, n, news, blocks1, x);
        CoveredStays(w, n, news, blocks1, x);
      }
    } else {
      var x :| x in w.orphans && Comes(w.blocks, w.pins, x) && !(x in w.blocks && Below(w.blocks, x, w.chain[n]));
      UncoveredLeaves(w, n, news, blocks1, x);
      ComesStays(w, n, news, blocks1, x);
    }
  }

  lemma CoveredStays(w: World, n: nat, news: seq<nat>, blocks1: Blocks, x: nat)
    requires WorldOk(w) && Collectable(w, n, news, blocks1) && w.chain[n] in blocks1 && TailCovers(w, n)
    requires x in Superseded(w, n) && Comes(w.blocks, w.pins, x)
    ensures !Leaves(w, n, blocks1, x)
  {
    ReachedIff(w, n, news, blocks1, x);
    SupersededIn(w, n, news, blocks1, x);
    TailIsKept(w, n, news, blocks1);
    if x in w.orphans {
      assert Below(w.blocks, x, w.chain[n]);
    } else if x in w.chain[1..n] {
      MemberBelow(w, n, news, blocks1, x);
    }
  }

  /** An orphan that does not precede the tail is freed, whoever comes to it. */
  lemma UncoveredLeaves(w: World, n: nat, news: seq<nat>, blocks1: Blocks, x: nat)
    requires WorldOk(w) && Collectable(w, n, news, blocks1) && w.chain[n] in blocks1
    requires x in w.orphans && !(x in w.blocks && Below(w.blocks, x, w.chain[n]))
    ensures Leaves(w, n, blocks1, x)
  {
    ReachedIff(w, n, news, blocks1, x);
    TailIsKept(w, n, news, blocks1);
    StrayIn(w, n, news, blocks1, x);
  }

  /* Every run. */

  ghost predicate DanglesAt(w: World, b: nat, k: nat)
  {
    NotEnded(w.blocks, b, k) && Hop(w.blocks, b, k) !in w.blocks
  }

  /** Some thread that follows links from its pin comes to a block that is gone. */
  ghost predicate Dangles(w: World)
  {
    exists t, k: nat :: 0 <= t < |w.pins| && DanglesAt(w, w.pins[t], k)
  }

  /** The first block on the way that is gone. */
  lemma {:induction false} FirstGone(w: World, blocks1: Blocks, b: nat, k: nat) returns (j: nat)
    requires forall x | x in w.blocks :: x in blocks1 && w.blocks[x] == blocks1[x]
    requires NotEnded(blocks1, b, k) && Hop(blocks1, b, k) !in w.blocks
    ensures DanglesAt(w, b, j)
    decreases k
  {
    if i :| 0 <= i < k && Hop(blocks1, b, i) !in w.blocks {
      j := FirstGone(w, blocks1, b, i);
    } else {
      j := k;
      forall i | 0 <= i <= k ensures Hop(w.blocks, b, i) == Hop(blocks1, b, i) { SameWay(w.blocks, blocks1, b, i); }
    }
  }

  lemma {:induction false} SameWay(blocks: Blocks, blocks1: Blocks, b: nat, k: nat)
    requires forall x | x in blocks :: x in blocks1 && blocks[x] == blocks1[x]
    requires forall i | 0 <= i < k :: Hop(blocks1, b, i) in blocks
    ensures Hop(blocks, b, k) == Hop(blocks1, b, k)
  {
    if k > 0 {
      SameWay(blocks, blocks1, b, k - 1);
      assert Hop(blocks1, b, k - 1) in blocks;
    }
  }

  /** A collection whose tail does not cover the orphans leaves a thread dangling. */
  lemma UncoveredDangles(w: World, w': World, n: nat, news: seq<nat>, blocks1: Blocks)
    requires WorldOk(w) && Collected(w, w', n, news, blocks1) && !TailCovers(w, n)
    ensures Dangles(w')
  {
    var x :| x in w.orphans && Comes(w.blocks, w.pins, x) && !(x in w.blocks && Below(w.blocks, x, w.chain[n]));
    UncoveredLeaves(w, n, news, blocks1, x);
    ComesStays(w, n, news, blocks1, x);
    var t, k: nat :| 0 <= t < |w.pins| && ComesBy(blocks1, w.pins[t], x, k);
    assert Hop(blocks1, w.pins[t], k) !in w'.blocks;
    var j := FirstGone(w', blocks1, w.pins[t], k);
    assert DanglesAt(w', w'.pins[t], j);
  }

  lemma OkDoesNotDangle(w: World)
    requires WorldOk(w)
    ensures !Dangles(w)
  {
    forall t, k: nat | 0 <= t < |w.pins| ensures !DanglesAt(w, w.pins[t], k) {
      if NotEnded(w.blocks, w.pins[t], k) { HopIn(w, w.pins[t], k); }
    }
  }

  /** In a run in which no thread ever dangles, all collections are careful. */
  lemma {:induction false} NoneDangles(ws: seq<World>, acts: seq<Action>, i: nat)
    requires Run(ws, acts) && i < |ws| && WorldOk(ws[0]) && forall j | 0 <= j < |ws| :: !Dangles(ws[j])
    ensures WorldOk(ws[i]) && (i < |acts| ==> Careful(ws[i], acts[i]))
  {
    if i > 0 {
      NoneDangles(ws, acts, i - 1);
      assert Step(ws[i - 1], acts[i - 1], ws[i]);
      StepOk(ws[i - 1], acts[i - 1], ws[i]);
    }
    if i < |acts| {
      assert Step(ws[i], acts[i], ws[i + 1]) && !Dangles(ws[i + 1]);
      StepIsCareful(ws[i], acts[i], ws[i + 1]);
    }
  }

  lemma StepIsCareful(w: World, a: Action, w': World)
    requires WorldOk(w) && Step(w, a, w') && !Dangles(w')
    ensures Careful(w, a)
  {
    if a.Collect? {
      var blocks1: Blocks :| Collected(w, w', a.n, a.news, blocks1);
      if !TailCovers(w, a.n) { UncoveredDangles(w, w', a.n, a.news, blocks1); }
    }
  }

  /** In no state of a run does a thread come to a block that is gone, exactly if
      the tail of every collection covers the orphans. */
  lemma NeverDanglingIff(ws: seq<World>, acts: seq<Action>)
    requires Run(ws, acts) && WorldOk(ws[0])
    ensures (forall i | 0 <= i < |ws| :: !Dangles(ws[i])) <==> forall i | 0 <= i < |acts| :: Careful(ws[i], acts[i])
  {
    if forall i | 0 <= i < |acts| :: Careful(ws[i], acts[i]) {
      forall i | 0 <= i < |ws| ensures !Dangles(ws[i]) {
        RunOk(ws, acts, i);
        OkDoesNotDangle(ws[i]);
      }
    }
    if forall i | 0 <= i < |ws| :: !Dangles(ws[i]) {
      forall i | 0 <= i < |acts| ensures Careful(ws[i], acts[i]) { NoneDangles(ws, acts, i); }
    }
  }

  /* Two collections. */

  function Blk(next: nat, txSeq: nat): TxLog.TxBlock { TxLog.TxBlock([], next, txSeq) }

  // A list of four blocks, of which some thread has pinned the third.
  const BEFORE: Blocks := map[0 := Blk(1, 0), 1 := Blk(2, 1), 2 := Blk(3, 2), 3 := Blk(4, 3), 4 := Blk(0, 4)]
  const W0: World := World(BEFORE, [0, 1, 2, 3, 4], [], [], map[0 := 0, 1 := 0, 2 := 0, 3 := 0, 4 := 0], 0, [3])

  // The first collection writes three blocks, 11, 12 and 13, before the tail 4, and
  // keeps block 3.
  const LINKED1: Blocks :=
    map[0 := Blk(11, 0), 11 := Blk(12, 1), 12 := Blk(13, 2), 13 := Blk(4, 3),
        1 := Blk(2, 1), 2 := Blk(3, 2), 3 := Blk(4, 3), 4 := Blk(0, 4)]
  const AFTER1: Blocks :=
    map[0 := Blk(11, 0), 11 := Blk(12, 1), 12 := Blk(13, 2), 13 := Blk(4, 3), 3 := Blk(4, 3), 4 := Blk(0, 4)]
  const LINKS1: Links := map[0 := 3, 1 := 0, 2 := 0, 3 := 0, 4 := 0, 11 := 0, 12 := 0, 13 := 0]
  const W1: World := World(AFTER1, [0, 11, 12, 13, 4], [3], [], LINKS1, 4, [3])

  // The second one takes block 13 for the tail and writes one block, 21.
  const LINKED2: Blocks :=
    map[0 := Blk(21, 0), 21 := Blk(13, 1), 11 := Blk(12, 1), 12 := Blk(13, 2), 13 := Blk(4, 3),
        3 := Blk(4, 3), 4 := Blk(0, 4)]
  const AFTER2: Blocks := map[0 := Blk(21, 0), 21 := Blk(13, 1), 13 := Blk(4, 3), 4 := Blk(0, 4)]
  const LINKS2: Links :=
    map[0 := 0, 1 := 0, 2 := 0, 3 := 0, 4 := 0, 11 := 0, 12 := 0, 13 := 0, 21 := 0]
  const W2: World := World(AFTER2, [0, 21, 13, 4], [], [], LINKS2, 3, [3])

  lemma IsCollected(w: World, w': World, n: nat, news: seq<nat>, blocks1: Blocks, gone: set<nat>)
    requires Collectable(w, n, news, blocks1) && w.chain[n] in blocks1
    requires Sorted(w, w', n, blocks1) && Relinked(w, w', n, news)
    requires w'.blocks == blocks1 - gone && forall x: nat :: Leaves(w, n, blocks1, x) <==> x in gone
    requires w'.chain == ChainAfter(w, n, news) && w'.from == FromAfter(w, n, news) && w'.pins == w.pins
    ensures Collected(w, w', n, news, blocks1)
  {
  }

  lemma StartsOk()
    ensures WorldOk(W0)
  {
    var w := W0;
    forall i | 0 <= i < |w.chain| ensures ChainUpAt(w.blocks, w.chain, i) {}
    forall b | b in w.blocks ensures InWorld(w, b) { assert w.chain[b] == b; }
    assert StopOk(w.links, [], 0);
  }

  lemma FirstCollectable()
    ensures Collectable(W0, 4, [11, 12, 13], LINKED1)
  {
    forall i | 0 <= i < 3 ensures NewLink(LINKED1, [11, 12, 13], 4, i) {}
  }

  lemma FirstLeaves(x: nat)
    ensures ReachedByPin(LINKED1, 4, [3], x) <==> x == 3
    ensures Leaves(W0, 4, LINKED1, x) <==> x == 1 || x == 2
  {
    LastBlock(LINKED1, 4, 3, x);
    assert W0.chain[1..4] == [1, 2, 3];
  }

  lemma FirstSorted()
    ensures Sorted(W0, W1, 4, LINKED1)
  {
    FirstOrphans();
    forall x: nat ensures Leaves(W0, 4, LINKED1, x) <==> x == 1 || x == 2 { FirstLeaves(x); }
  }

  lemma FirstRelinked()
    ensures Relinked(W0, W1, 4, [11, 12, 13])
  {
    assert StopOk(LINKS1, [3], 0) && StopOk(LINKS1, [3], 1);
  }

  lemma FirstOrphans()
    ensures W0.chain[1..4] == [1, 2, 3] && OrphansAfter([], [1, 2, 3], PinnedSet(LINKED1, 4, [3])) == [3]
  {
    forall x: nat ensures ReachedByPin(LINKED1, 4, [3], x) <==> x == 3 { FirstLeaves(x); }
    KeepSuffix([1, 2, 3], PinnedSet(LINKED1, 4, [3]), 2);
  }

  lemma FirstCollection()
    ensures Collected(W0, W1, 4, [11, 12, 13], LINKED1)
  {
    FirstCollectable();
    FirstSorted();
    FirstRelinked();
    FirstResult();
    IsCollected(W0, W1, 4, [11, 12, 13], LINKED1, {1, 2});
  }

  lemma FirstResult()
    ensures W0.chain[4] in LINKED1 && forall x: nat :: Leaves(W0, 4, LINKED1, x) <==> x in {1, 2}
    ensures W1.blocks == LINKED1 - {1, 2} && W1.chain == ChainAfter(W0, 4, [11, 12, 13])
    ensures W1.from == FromAfter(W0, 4, [11, 12, 13]) && W1.pins == W0.pins
  {
    forall x: nat ensures Leaves(W0, 4, LINKED1, x) <==> x in {1, 2} { FirstLeaves(x); }
  }

  /** From a block that does not precede the tail the scan finds nothing. */
  lemma NothingFound(blocks: Blocks, tail: nat, b: nat, x: nat)
    requires tail in blocks && b in blocks && !Below(blocks, b, tail)
    ensures !ReachedByPin(blocks, tail, [b], x)
  {
    forall t, k: nat | 0 <= t < |[b]| ensures !Reaches(blocks, tail, [b][t], x, k) {
      assert Hop(blocks, b, 0) == b;
    }
  }

  lemma SecondCollectable()
    ensures Collectable(W1, 3, [21], LINKED2)
  {
    assert NewLink(LINKED2, [21], 13, 0);
  }

  lemma SecondLeaves(x: nat)
    ensures !ReachedByPin(LINKED2, 13, [3], x) && (Leaves(W1, 3, LINKED2, x) <==> x == 3 || x == 11 || x == 12)
  {
    NothingFound(LINKED2, 13, 3, x);
    assert W1.chain[1..3] == [11, 12];
  }

  lemma SecondSorted()
    ensures Sorted(W1, W2, 3, LINKED2) && Relinked(W1, W2, 3, [21])
  {
    forall x: nat ensures Leaves(W1, 3, LINKED2, x) <==> x == 3 || x == 11 || x == 12 { SecondLeaves(x); }
    assert W1.chain[1..3] == [11, 12];
    assert OrphansAfter([3], [11, 12], PinnedSet(LINKED2, 13, [3])) == [] by {
      forall x: nat ensures !ReachedByPin(LINKED2, 13, [3], x) { SecondLeaves(x); }
      KeepSuffix([3], PinnedSet(LINKED2, 13, [3]), 1);
    }
    assert StopOk(LINKS2, [], 0);
  }

  lemma SecondCollection()
    ensures Collected(W1, W2, 3, [21], LINKED2)
  {
    SecondCollectable();
    SecondSorted();
    SecondResult();
    IsCollected(W1, W2, 3, [21], LINKED2, {3, 11, 12});
  }

  lemma SecondResult()
    ensures W1.chain[3] in LINKED2 && forall x: nat :: Leaves(W1, 3, LINKED2, x) <==> x in {3, 11, 12}
    ensures W2.blocks == LINKED2 - {3, 11, 12} && W2.chain == ChainAfter(W1, 3, [21])
    ensures W2.from == FromAfter(W1, 3, [21]) && W2.pins == W1.pins
  {
    forall x: nat ensures Leaves(W1, 3, LINKED2, x) <==> x in {3, 11, 12} { SecondLeaves(x); }
  }

  lemma TwoSteps(w0: World, a0: Action, w1: World, a1: Action, w2: World)
    requires Step(w0, a0, w1) && Step(w1, a1, w2)
    ensures Run([w0, w1, w2], [a0, a1])
  {
  }

  /** A run of two collections, the second of which frees a block while a thread has
      it pinned. */
  lemma FreedWhilePinned()
    ensures WorldOk(W0) && Run([W0, W1, W2], [Collect(4, [11, 12, 13]), Collect(3, [21])])
    ensures W2.pins == [3] && 3 !in W2.blocks && Dangles(W2)
  {
    StartsOk();
    FirstCollection();
    SecondCollection();
    TwoSteps(W0, Collect(4, [11, 12, 13]), W1, Collect(3, [21]), W2);
    GoneDangles(W2, 0);
  }

  lemma GoneDangles(w: World, t: nat)
    requires t < |w.pins| && w.pins[t] != 0 && w.pins[t] !in w.blocks
    ensures Dangles(w)
  {
    assert Hop(w.blocks, w.pins[t], 0) == w.pins[t];
    assert DanglesAt(w, w.pins[t], 0);
  }

  /** What the second one does. */
  method PinnedOrphan() returns (r: Entry.Option<Recycled>)
    ensures r.Some? && 3 in r.value.freed
  {
    OrphanInput();
    r := Recycle(LINKED2, 11, 13, LINKS1, [3], [3], [11, 12]);
    NothingFound(LINKED2, 13, 3, 3);
    FreedIff(r.value.freed, LINKED2, 13, [3] + [11, 12], [3], 3);
  }

  lemma OrphanInput()
    ensures OldList(LINKED2, 11, 13, [11, 12]) && LinksOk(LINKED2, 13)
    ensures Listed(LINKS1, [3]) && Apart(LINKS1, [11, 12])
  {
    OrphanBlocks();
    assert StopOk(LINKS1, [3], 0) && StopOk(LINKS1, [3], 1);
  }

  lemma OrphanBlocks()
    ensures OldList(LINKED2, 11, 13, [11, 12]) && LinksOk(LINKED2, 13)
  {
  }
}
