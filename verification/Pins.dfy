/** Which transaction blocks a garbage collection has to keep: those that some
    thread can still come to from the block that it has pinned. */
module Pins {
  import opened Entry
  import opened TxLog

  type Blocks = map<nat, TxBlock>

  /** `operator<` of block cursors, away from the meta block. */
  predicate Below(blocks: Blocks, b: nat, tail: nat)
    requires b in blocks && tail in blocks
  {
    b != tail && blocks[b].txSeq < blocks[tail].txSeq
  }

  /** Links lead upwards in sequence numbers, and lead on until `tail`. */
  ghost predicate LinksOk(blocks: Blocks, tail: nat)
  {
    && tail in blocks
    && forall b | b in blocks && Below(blocks, b, tail) ::
         blocks[b].next != 0 && blocks[b].next in blocks && blocks[blocks[b].next].txSeq > blocks[b].txSeq
  }

  /** Following `k` links from `b`. */
  ghost function Hop(blocks: Blocks, b: nat, k: nat): nat
  {
    if k == 0 then b else
      var c := Hop(blocks, b, k - 1); if c in blocks then blocks[c].next else 0
  }

  /** A thread that has pinned `b` can come to `x`, a block before `tail`. */
  ghost predicate Reaches(blocks: Blocks, tail: nat, b: nat, x: nat, k: nat)
    requires tail in blocks
  {
    Hop(blocks, b, k) == x && forall j | 0 <= j <= k ::
        Hop(blocks, b, j) in blocks && Below(blocks, Hop(blocks, b, j), tail)
  }

  /** With every block of `pinned` its successor is in it, until `tail`. */
  ghost predicate Closed(blocks: Blocks, tail: nat, pinned: set<nat>)
    requires tail in blocks
  {
    forall b | b in pinned :: b in blocks && Below(blocks, b, tail) && Follows(blocks, tail, pinned, blocks[b].next)
  }

  ghost predicate Follows(blocks: Blocks, tail: nat, pinned: set<nat>, next: nat)
    requires tail in blocks
  {
    next in blocks && (Below(blocks, next, tail) ==> next in pinned)
  }

  ghost predicate ReachedByPin(blocks: Blocks, tail: nat, pins: seq<nat>, x: nat)
    requires tail in blocks
  {
    exists t, k: nat :: 0 <= t < |pins| && Reaches(blocks, tail, pins[t], x, k)
  }

  /** What pinned readers can come to. */
  ghost function PinnedSet(blocks: Blocks, tail: nat, pins: seq<nat>): set<nat>
    requires tail in blocks
  {
    set x | x in blocks && ReachedByPin(blocks, tail, pins, x)
  }

  /** Everything in `pinned` can be reached from one of the pins. */
  ghost predicate Justified(blocks: Blocks, tail: nat, pins: seq<nat>, pinned: set<nat>)
    requires tail in blocks
  {
    forall x | x in pinned :: ReachedByPin(blocks, tail, pins, x)
  }

  /** A set closed under links contains all that can be reached from a member. */
  lemma {:induction false} ClosedReaches(blocks: Blocks, tail: nat, pinned: set<nat>, b: nat, x: nat, k: nat)
    requires tail in blocks && Closed(blocks, tail, pinned) && b in pinned && Reaches(blocks, tail, b, x, k)
    ensures x in pinned
    decreases k
  {
    if k > 0 {
      var y := Hop(blocks, b, k - 1);
      ClosedReaches(blocks, tail, pinned, b, y, k - 1);
      assert Follows(blocks, tail, pinned, blocks[y].next);
      assert Hop(blocks, b, k) == x;
    }
  }

  /** The walk from one pin. It ends because sequence numbers increase. */
  method ScanFrom(blocks: Blocks, tail: nat, pins: seq<nat>, t: nat, pinned0: set<nat>) returns (pinned: set<nat>)
    requires LinksOk(blocks, tail) && t < |pins| && pins[t] in blocks
    requires Closed(blocks, tail, pinned0) && Justified(blocks, tail, pins, pinned0)
    ensures Closed(blocks, tail, pinned) && Justified(blocks, tail, pins, pinned) && pinned0 <= pinned
    ensures Below(blocks, pins[t], tail) ==> pins[t] in pinned
  {
    var curr := pins[t];
    pinned := pinned0;
    ghost var k := 0;
    while curr !in pinned && Below(blocks, curr, tail)
      invariant curr in blocks && curr == Hop(blocks, pins[t], k) && pinned0 <= pinned
      invariant forall j | 0 <= j < k ::
                  var b := Hop(blocks, pins[t], j); b in pinned && b in blocks && Below(blocks, b, tail)
      invariant ClosedBut(blocks, tail, pinned, curr) && Justified(blocks, tail, pins, pinned)
      decreases blocks[tail].txSeq - blocks[curr].txSeq
    {
      assert Reaches(blocks, tail, pins[t], curr, k);
      pinned := pinned + {curr};
      curr := blocks[curr].next;
      k := k + 1;
    }
    assert k > 0 ==> Hop(blocks, pins[t], 0) in pinned;
  }

  /** Closed, except that `curr` may be missing. */
  ghost predicate ClosedBut(blocks: Blocks, tail: nat, pinned: set<nat>, curr: nat)
    requires tail in blocks
  {
    forall b | b in pinned ::
      && b in blocks && Below(blocks, b, tail)
      && (blocks[b].next == curr || Follows(blocks, tail, pinned, blocks[b].next))
  }

  /** Collects the blocks that pinned readers can come to; a pin counts if its thread
      is alive. A thread in the meta block has pinned block 0, which has no address
      of its own: the walk from there follows a null pointer. */
  method ScanPinned(blocks: Blocks, tail: nat, pins: seq<nat>) returns (r: Option<set<nat>>)
    requires LinksOk(blocks, tail) && tail != 0 && forall t | 0 <= t < |pins| :: pins[t] == 0 || pins[t] in blocks
    ensures r.None? <==> 0 in pins
    ensures r.Some? ==> Closed(blocks, tail, r.value) && r.value == PinnedSet(blocks, tail, pins)
  {
    var pinned := {};
    for t := 0 to |pins|
      invariant 0 !in pins[..t]
      invariant Closed(blocks, tail, pinned) && Justified(blocks, tail, pins, pinned)
      invariant forall u | 0 <= u < t :: Below(blocks, pins[u], tail) ==> pins[u] in pinned
    {
      if pins[t] == 0 { return None; }
      pinned := ScanFrom(blocks, tail, pins, t, pinned);
    }
    assert pins[..|pins|] == pins;
    forall x | x in PinnedSet(blocks, tail, pins) ensures x in pinned {
      ReachedIsPinned(blocks, tail, pins, pinned, x);
    }
    r := Some(pinned);
  }

  /** A thread in the meta block, before a list of two blocks and the tail. */
  method PinnedMeta() returns (r: Option<set<nat>>)
    ensures r.None?
  {
    var blocks := map[0 := TxBlock([], 5, 0), 5 := TxBlock([], 6, 1), 6 := TxBlock([], 7, 2), 7 := TxBlock([], 0, 3)];
    r := ScanPinned(blocks, 7, [0]);
  }

  lemma ReachedIsPinned(blocks: Blocks, tail: nat, pins: seq<nat>, pinned: set<nat>, x: nat)
    requires tail in blocks && Closed(blocks, tail, pinned) && ReachedByPin(blocks, tail, pins, x)
    requires forall u | 0 <= u < |pins| :: pins[u] in blocks && (Below(blocks, pins[u], tail) ==> pins[u] in pinned)
    ensures x in pinned
  {
    var t, k: nat :| 0 <= t < |pins| && Reaches(blocks, tail, pins[t], x, k);
    assert Hop(blocks, pins[t], 0) == pins[t];
    ClosedReaches(blocks, tail, pinned, pins[t], x, k);
  }
}
