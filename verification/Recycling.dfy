/** Recycling transaction blocks after a garbage collection: what is not pinned is
    freed, and the rest is put on the orphan list for a later collection. */
module Recycling {
  import Alloc
  import opened Entry
  import opened TxLog
  import opened Pins

  /** The blocks from `head` to the last one before `tail`. */
  ghost predicate OldList(blocks: Blocks, head: nat, tail: nat, list: seq<nat>)
    requires tail in blocks
  {
    && (forall i | 0 <= i < |list| :: list[i] in blocks && Below(blocks, list[i], tail))
    && (if list == [] then head == tail else list[0] == head && blocks[list[|list| - 1]].next == tail)
    && (forall i, k | 0 <= i && k == i + 1 && k < |list| :: blocks[list[i]].next == list[k])
  }

  /** Once a block of the list is pinned, all later ones are. */
  lemma {:induction false} PinnedTail(blocks: Blocks, head: nat, tail: nat, list: seq<nat>, pinned: set<nat>, i: nat,
                                      k: nat)
    requires tail in blocks && OldList(blocks, head, tail, list) && Closed(blocks, tail, pinned)
    requires i <= k < |list| && list[i] in pinned
    ensures list[k] in pinned
  {
    if i < k {
      PinnedTail(blocks, head, tail, list, pinned, i, k - 1);
      assert blocks[list[k - 1]].next == list[k];
      assert Follows(blocks, tail, pinned, blocks[list[k - 1]].next);
    }
  }

  /** The blocks of `xs` that are pinned, in order. */
  function Keep(xs: seq<nat>, pinned: set<nat>): seq<nat>
  {
    if xs == [] then [] else
      var n := |xs| - 1;
      if xs[n] in pinned then Keep(xs[..n], pinned) + [xs[n]] else Keep(xs[..n], pinned)
  }

  /** The blocks of `xs` that are not, in order. */
  function Drop(xs: seq<nat>, pinned: set<nat>): seq<nat>
  {
    if xs == [] then [] else
      var n := |xs| - 1;
      if xs[n] in pinned then Drop(xs[..n], pinned) else Drop(xs[..n], pinned) + [xs[n]]
  }

  lemma {:induction false} KeepIn(xs: seq<nat>, pinned: set<nat>, x: nat)
    ensures x in Keep(xs, pinned) <==> x in xs && x in pinned
    ensures x in Drop(xs, pinned) <==> x in xs && x !in pinned
  {
    if xs != [] {
      var n := |xs| - 1;
      KeepIn(xs[..n], pinned, x);
      assert xs == xs[..n] + [xs[n]];
    }
  }

  lemma KeepNext(xs: seq<nat>, pinned: set<nat>, i: nat)
    requires i < |xs|
    ensures Keep(xs[..i + 1], pinned) == Keep(xs[..i], pinned) + if xs[i] in pinned then [xs[i]] else []
    ensures Drop(xs[..i + 1], pinned) == Drop(xs[..i], pinned) + if xs[i] in pinned then [] else [xs[i]]
  {
    assert xs[..i + 1][..i] == xs[..i];
  }

  predicate Distinct(xs: seq<nat>) { forall i, k | 0 <= i < k < |xs| :: xs[i] != xs[k] }

  lemma {:induction false} KeepDistinct(xs: seq<nat>, pinned: set<nat>)
    requires Distinct(xs)
    ensures Distinct(Keep(xs, pinned)) && Distinct(Drop(xs, pinned))
  {
    if xs != [] {
      var n := |xs| - 1;
      KeepDistinct(xs[..n], pinned);
      KeepIn(xs[..n], pinned, xs[n]);
    }
  }

  lemma {:induction false} KeepSuffix(xs: seq<nat>, pinned: set<nat>, n: nat)
    requires n <= |xs| && (forall i | 0 <= i < n :: xs[i] !in pinned) && forall i | n <= i < |xs| :: xs[i] in pinned
    ensures Keep(xs, pinned) == xs[n..] && Drop(xs, pinned) == xs[..n]
  {
    if xs != [] {
      var m := |xs| - 1;
      if n <= m {
        KeepSuffix(xs[..m], pinned, n);
        assert xs[n..] == xs[..m][n..] + [xs[m]] && xs[..m][..n] == xs[..n];
      } else {
        KeepSuffix(xs[..m], pinned, m);
        assert xs[..m][..m] == xs[..m] && xs[..n] == xs[..m] + [xs[m]];
      }
    }
  }

  /* The orphan list. */

  // For every block, the block that its `next_orphan` field names; 0 if none.
  type Links = map<nat, nat>

  /** The `a`-th stop on the way along the orphan list, which starts at the meta
      block. */
  function Stop(os: seq<nat>, a: nat): nat
    requires a <= |os|
  {
    if a == 0 then 0 else os[a - 1]
  }

  function NextStop(os: seq<nat>, a: nat): nat
    requires a <= |os|
  {
    if a < |os| then os[a] else 0
  }

  ghost predicate StopOk(links: Links, os: seq<nat>, a: nat)
    requires a <= |os|
  {
    Stop(os, a) in links && links[Stop(os, a)] == NextStop(os, a)
  }

  /** The blocks on the orphan list are `os`. */
  ghost predicate Listed(links: Links, os: seq<nat>)
  {
    0 !in os && Distinct(os) && forall a | 0 <= a <= |os| :: StopOk(links, os, a)
  }

  lemma {:induction false} ListedAgree(links: Links, os: seq<nat>, os': seq<nat>, a: nat)
    requires Listed(links, os) && Listed(links, os') && a <= |os| && a <= |os'|
    ensures os[..a] == os'[..a]
  {
    if a > 0 {
      ListedAgree(links, os, os', a - 1);
      assert StopOk(links, os, a - 1) && StopOk(links, os', a - 1);
      assert Stop(os, a - 1) == Stop(os', a - 1) by { if a > 1 { assert os[..a - 1][a - 2] == os'[..a - 1][a - 2]; } }
      assert os[..a] == os[..a - 1] + [os[a - 1]] && os'[..a] == os'[..a - 1] + [os'[a - 1]];
    }
  }

  /** The links determine the list. */
  lemma {:induction false} ListedUnique(links: Links, os: seq<nat>, os': seq<nat>)
    requires Listed(links, os) && Listed(links, os')
    ensures os == os'
  {
    var n := if |os| < |os'| then |os| else |os'|;
    ListedAgree(links, os, os', n);
    assert StopOk(links, os, n) && StopOk(links, os', n);
    assert Stop(os, n) == Stop(os', n) by { if n > 0 { assert os[..n][n - 1] == os'[..n][n - 1]; } }
    assert os[..|os|] == os && os'[..|os'|] == os';
  }

  /** The orphan list half walked: the first `i` orphans are sorted out, the kept
      ones are linked, and the last of them leads to the `i`-th. */
  ghost predicate Walked(links0: Links, links: Links, os: seq<nat>, i: nat, kept: seq<nat>)
    requires i <= |os|
  {
    && links.Keys == links0.Keys
    && (forall a | 0 <= a < |kept| :: StopOk(links, kept, a))
    && Stop(os, i) in links && links[Stop(os, i)] == NextStop(os, i)
    && Stop(kept, |kept|) in links && links[Stop(kept, |kept|)] == NextStop(os, i)
    && forall x | x in links && x != 0 && x !in kept :: links[x] == links0[x]
  }

  lemma WalkKeep(links0: Links, links: Links, os: seq<nat>, i: nat, kept: seq<nat>)
    requires i < |os| && Walked(links0, links, os, i, kept) && os[i] in links && links[os[i]] == NextStop(os, i + 1)
    ensures Walked(links0, links, os, i + 1, kept + [os[i]])
  {
    var kept' := kept + [os[i]];
    forall a | 0 <= a < |kept'| ensures StopOk(links, kept', a) { if a < |kept| { assert StopOk(links, kept, a); } }
  }

  lemma WalkDrop(links0: Links, links: Links, os: seq<nat>, i: nat, kept: seq<nat>)
    requires i < |os| && Walked(links0, links, os, i, kept) && os[i] in links && links[os[i]] == NextStop(os, i + 1)
    requires Distinct(kept) && 0 !in kept && os[i] != 0 && os[i] !in kept
    ensures Walked(links0, links[Stop(kept, |kept|) := links[os[i]]], os, i + 1, kept)
  {
    var prev := Stop(kept, |kept|);
    var links' := links[prev := links[os[i]]];
    forall a | 0 <= a < |kept| ensures StopOk(links', kept, a) {
      assert StopOk(links, kept, a) && Stop(kept, a) != prev;
    }
  }

  /** The orphan that comes next is as it was. */
  lemma WalkFacts(links0: Links, links: Links, os: seq<nat>, i: nat, pinned: set<nat>, kept: seq<nat>)
    requires Listed(links0, os) && i < |os| && kept == Keep(os[..i], pinned) && Walked(links0, links, os, i, kept)
    ensures os[i] in links && links[os[i]] == NextStop(os, i + 1) && os[i] != 0 && os[i] !in kept
    ensures Distinct(kept) && 0 !in kept
  {
    KeepIn(os[..i], pinned, os[i]);
    KeepIn(os[..i], pinned, 0);
    KeepDistinct(os[..i], pinned);
    assert StopOk(links0, os, i + 1);
  }

  /** The walk ends behind the last orphan. */
  lemma WalkEnd(links0: Links, links: Links, os: seq<nat>, i: nat, pinned: set<nat>, kept: seq<nat>)
    requires Listed(links0, os) && i <= |os| && Walked(links0, links, os, i, kept) && kept == Keep(os[..i], pinned)
    requires links[Stop(os, i)] == 0
    ensures i == |os| && os[..i] == os && Listed(links, kept)
  {
    assert os[..i] == os;
    KeepDistinct(os, pinned);
    KeepIn(os, pinned, 0);
    forall a | 0 <= a <= |kept| ensures StopOk(links, kept, a) {}
  }

  /** The walk along the orphan list: orphans that are not pinned are unlinked and
      freed. It ends on the last orphan, freed or not. */
  method FreeOrphans(links0: Links, pinned: set<nat>, ghost os: seq<nat>)
    returns (freed: seq<nat>, links: Links, last: nat)
    requires Listed(links0, os)
    ensures freed == Drop(os, pinned) && Listed(links, Keep(os, pinned))
    ensures last == Stop(os, |os|) && Walked(links0, links, os, |os|, Keep(os, pinned))
  {
    freed, links, last := [], links0, 0;
    var prev := 0;
    ghost var i, kept := 0, [];
    assert StopOk(links0, os, 0);
    while links[last] != 0
      invariant i <= |os| && last == Stop(os, i)
      invariant kept == Keep(os[..i], pinned) && prev == Stop(kept, |kept|) && freed == Drop(os[..i], pinned)
      invariant Walked(links0, links, os, i, kept)
      decreases |os| - i
    {
      last := links[last];
      WalkFacts(links0, links, os, i, pinned, kept);
      KeepNext(os, pinned, i);
      if last in pinned {
        WalkKeep(links0, links, os, i, kept);
        prev, kept := last, kept + [last];
      } else {
        WalkDrop(links0, links, os, i, kept);
        links := links[prev := links[last]];
        freed := freed + [last];
      }
      i := i + 1;
    }
    WalkEnd(links0, links, os, i, pinned, kept);
  }

  /* The old list. */

  method FreeUpTo(blocks: Blocks, head: nat, tail: nat, pinned: set<nat>, ghost list: seq<nat>)
    returns (freed: seq<nat>, curr: nat, ghost n: nat)
    requires LinksOk(blocks, tail) && OldList(blocks, head, tail, list) && head in blocks
    ensures n <= |list| && freed == list[..n] && curr == if n < |list| then list[n] else tail
    ensures (forall i | 0 <= i < n :: list[i] !in pinned) && (n < |list| ==> list[n] in pinned)
  {
    freed, curr, n := [], head, 0;
    while Below(blocks, curr, tail) && curr !in pinned
      invariant n <= |list| && freed == list[..n] && curr == (if n < |list| then list[n] else tail)
      invariant forall i | 0 <= i < n :: list[i] !in pinned
      decreases |list| - n
    {
      NextInList(blocks, head, tail, list, n);
      freed, curr, n := freed + [curr], blocks[curr].next, n + 1;
    }
    if n < |list| { NextInList(blocks, head, tail, list, n); }
  }

  lemma NextInList(blocks: Blocks, head: nat, tail: nat, list: seq<nat>, n: nat)
    requires tail in blocks && OldList(blocks, head, tail, list) && n < |list|
    ensures list[n] in blocks && Below(blocks, list[n], tail)
    ensures blocks[list[n]].next == if n + 1 < |list| then list[n + 1] else tail
    ensures list[..n + 1] == list[..n] + [list[n]]
  {
  }

  /** Blocks that are on no orphan list. */
  ghost predicate Apart(links: Links, list: seq<nat>)
  {
    0 !in list && Distinct(list) && forall x | x in list :: x in links && links[x] == 0
  }

  ghost predicate HungAt(links: Links, from: nat, rest: seq<nat>, i: nat)
    requires i < |rest|
  {
    var b := if i == 0 then from else rest[i - 1]; b in links && links[b] == rest[i]
  }

  /** `rest` follows `from`, and nothing else has changed. */
  ghost predicate Hung(links0: Links, links: Links, from: nat, rest: seq<nat>)
  {
    && links.Keys == links0.Keys && (forall i | 0 <= i < |rest| :: HungAt(links, from, rest, i))
    && (rest == [] ==> links == links0)
    && forall x | x in links && x != from && (x in rest ==> x == rest[|rest| - 1]) :: links[x] == links0[x]
  }

  function HangEnd(from: nat, rest: seq<nat>): nat { if rest == [] then from else rest[|rest| - 1] }

  lemma HangOne(links0: Links, links: Links, from: nat, rest: seq<nat>, next: nat)
    requires HangEnd(from, rest) in links0 && Hung(links0, links, from, rest)
    requires Distinct(rest) && from !in rest && next !in rest && next != from
    ensures Hung(links0, links[HangEnd(from, rest) := next], from, rest + [next])
  {
    var links', rest' := links[HangEnd(from, rest) := next], rest + [next];
    forall i | 0 <= i < |rest'| ensures HungAt(links', from, rest', i) {
      if i < |rest| { assert HungAt(links, from, rest, i); }
    }
  }

  lemma HangNext(links0: Links, from: nat, list: seq<nat>, n: nat, m: nat)
    requires n <= m < |list| && from in links0 && Apart(links0, list) && from !in list
    ensures var rest := list[n..m];
            && Distinct(rest) && from !in rest && list[m] !in rest && list[m] != from && HangEnd(from, rest) in links0
            && rest + [list[m]] == list[n..m + 1] && HangEnd(from, rest + [list[m]]) == list[m]
  {
    var rest := list[n..m];
    forall x | x in rest ensures x in list && x != list[m] {}
  }

  /** The kept blocks of the old list are hung on `from`, one behind the other. */
  method Hang(blocks: Blocks, links0: Links, from: nat, ghost head: nat, curr: nat, tail: nat, ghost list: seq<nat>,
              ghost n: nat)
    returns (links: Links)
    requires LinksOk(blocks, tail) && OldList(blocks, head, tail, list) && head in blocks
    requires n <= |list| && curr == if n < |list| then list[n] else tail
    requires from in links0 && Apart(links0, list) && from !in list
    ensures Hung(links0, links, from, list[n..])
  {
    links := links0;
    var last, next := from, curr;
    ghost var m, rest := n, [];
    while Below(blocks, next, tail)
      invariant n <= m <= |list| && next == (if m < |list| then list[m] else tail) && rest == list[n..m]
      invariant last == HangEnd(from, rest) && Hung(links0, links, from, rest)
      decreases |list| - m
    {
      NextInList(blocks, head, tail, list, m);
      HangNext(links0, from, list, n, m);
      HangOne(links0, links, from, rest, next);
      links := links[last := next];
      rest := rest + [next];
      last := links[last];
      next, m := blocks[next].next, m + 1;
    }
    assert rest == list[n..];
  }

  lemma DistinctConcat(a: seq<nat>, b: seq<nat>)
    requires Distinct(a) && Distinct(b) && forall x | x in b :: x !in a
    ensures Distinct(a + b)
  {
    forall i, k | 0 <= i < k < |a + b| ensures (a + b)[i] != (a + b)[k] {
      if i < |a| <= k { assert b[k - |a|] in b; }
    }
  }

  /** Behind the end of the list, the blocks hung up are on the list. */
  lemma HungBehind(links0: Links, links: Links, os: seq<nat>, rest: seq<nat>)
    requires Listed(links0, os) && Apart(links0, rest) && (forall x | x in rest :: x !in os)
    requires Hung(links0, links, Stop(os, |os|), rest)
    ensures Listed(links, os + rest)
  {
    var all := os + rest;
    DistinctConcat(os, rest);
    forall a | 0 <= a <= |all| ensures StopOk(links, all, a) {
      if a < |os| {
        assert StopOk(links0, os, a) && Stop(os, a) != Stop(os, |os|) && Stop(os, a) !in rest;
        assert Stop(all, a) == Stop(os, a);
      } else if a < |all| {
        assert HungAt(links, Stop(os, |os|), rest, a - |os|);
      } else if rest == [] {
        assert StopOk(links0, os, a);
      } else {
        var x := rest[|rest| - 1];
        assert Stop(all, a) == x && x in rest && x != Stop(os, |os|);
      }
    }
  }

  /** Behind a block that is not on the list, they are not. */
  lemma HungElsewhere(links0: Links, links: Links, os: seq<nat>, from: nat, rest: seq<nat>)
    requires Listed(links0, os) && Apart(links0, rest) && (forall x | x in rest :: x !in os)
    requires Hung(links0, links, from, rest) && from != 0 && from !in os
    ensures Listed(links, os)
  {
    forall a | 0 <= a <= |os| ensures StopOk(links, os, a) { assert StopOk(links0, os, a); }
  }

  /* The whole. */

  ghost predicate Unpinned(blocks: Blocks, tail: nat, superseded: seq<nat>, pins: seq<nat>, x: nat)
    requires tail in blocks
  {
    x in superseded && !ReachedByPin(blocks, tail, pins, x)
  }

  /** The walk along the orphans ended on a block that is still on the list. */
  predicate EndsOnList(orphans: seq<nat>, pinned: set<nat>)
  {
    orphans == [] || orphans[|orphans| - 1] in pinned
  }

  /** The orphan list after a collection: the kept blocks of the old list are on it
      only if they were hung on a block of it. */
  function OrphansAfter(orphans: seq<nat>, list: seq<nat>, pinned: set<nat>): seq<nat>
  {
    Keep(orphans, pinned) + if EndsOnList(orphans, pinned) then Keep(list, pinned) else []
  }

  datatype Recycled = Recycled(freed: seq<nat>, links: Links)

  /** Frees the orphans of earlier collections and the old list, up to the first
      pinned block of it, and hangs the rest of it on the last orphan. What is freed
      is exactly what is not pinned, each block once. */
  method Recycle(blocks: Blocks, head: nat, tail: nat, links: Links, pins: seq<nat>, ghost orphans: seq<nat>,
                 ghost list: seq<nat>)
    returns (r: Option<Recycled>)
    requires LinksOk(blocks, tail) && OldList(blocks, head, tail, list) && head in blocks && tail != 0
    requires forall t | 0 <= t < |pins| :: pins[t] == 0 || pins[t] in blocks
    requires Listed(links, orphans) && Apart(links, list) && forall x | x in list :: x !in orphans
    ensures r.None? <==> 0 in pins
    ensures r.Some? ==> FreesOnce(r.value.freed, blocks, tail, orphans + list, pins)
    ensures r.Some? ==> Listed(r.value.links, OrphansAfter(orphans, list, PinnedSet(blocks, tail, pins)))
    ensures r.Some? ==> LinksKept(links, r.value.links, orphans + list)
  {
    var scan := ScanPinned(blocks, tail, pins);
    if scan.None? { return None; }
    var pinned := scan.value;
    var freed, links1, last := FreeOrphans(links, pinned, orphans);
    var more, curr;
    ghost var n;
    more, curr, n := FreeUpTo(blocks, head, tail, pinned, list);
    StaysApart(links, links1, orphans, list, pinned);
    var links2 := Hang(blocks, links1, last, head, curr, tail, list, n);
    ListIsSplit(blocks, head, tail, list, pinned, n, more);
    Settled(links1, links2, orphans, list, pinned, n);
    LinksStay(links, links1, links2, orphans, list, pinned, n);
    DropsOnce(blocks, tail, orphans, list, pins, pinned);
    r := Some(Recycled(freed + more, links2));
  }

  /** Every block is freed as often as it should be: once if it is not pinned. */
  ghost predicate FreesOnce(freed: seq<nat>, blocks: Blocks, tail: nat, superseded: seq<nat>, pins: seq<nat>)
    requires tail in blocks
  {
    forall x: nat :: multiset(freed)[x] == if Unpinned(blocks, tail, superseded, pins, x) then 1 else 0
  }

  lemma FreedIff(freed: seq<nat>, blocks: Blocks, tail: nat, superseded: seq<nat>, pins: seq<nat>, x: nat)
    requires tail in blocks && FreesOnce(freed, blocks, tail, superseded, pins)
    ensures x in freed <==> Unpinned(blocks, tail, superseded, pins, x)
  {
    assert x in freed <==> multiset(freed)[x] > 0;
  }

  lemma DropsOnce(blocks: Blocks, tail: nat, orphans: seq<nat>, list: seq<nat>, pins: seq<nat>, pinned: set<nat>)
    requires tail in blocks && pinned == PinnedSet(blocks, tail, pins)
    requires Distinct(orphans) && Distinct(list) && forall x | x in list :: x !in orphans
    ensures FreesOnce(Drop(orphans, pinned) + Drop(list, pinned), blocks, tail, orphans + list, pins)
  {
    var freed, more := Drop(orphans, pinned), Drop(list, pinned);
    KeepDistinct(orphans, pinned);
    KeepDistinct(list, pinned);
    forall x: nat ensures x in freed + more <==> Unpinned(blocks, tail, orphans + list, pins, x) {
      KeepIn(orphans, pinned, x);
      KeepIn(list, pinned, x);
      ReachedIn(blocks, tail, pins, x);
    }
    forall x | x in more ensures x !in freed {
      KeepIn(orphans, pinned, x);
      KeepIn(list, pinned, x);
    }
    DistinctConcat(freed, more);
    forall x: nat ensures multiset(freed + more)[x] == if x in freed + more then 1 else 0 {
      DistinctOnce(freed + more, x);
    }
  }

  lemma {:induction false} DistinctOnce(xs: seq<nat>, x: nat)
    requires Distinct(xs)
    ensures multiset(xs)[x] == if x in xs then 1 else 0
  {
    if xs != [] {
      var n := |xs| - 1;
      DistinctOnce(xs[..n], x);
      assert xs == xs[..n] + [xs[n]];
    }
  }

  /** Frees blocks one by one. */
  method FreeBlocks(alloc: Alloc.BlockAllocator, freed: seq<nat>)
    requires alloc.Valid() && 0 !in freed
    modifies alloc`lists
    ensures alloc.Valid() && forall x: nat :: alloc.Count(x) == old(alloc.Count(x)) + multiset(freed)[x]
  {
    assert freed[..0] == [];
    for i := 0 to |freed|
      invariant alloc.Valid() && forall x: nat :: alloc.Count(x) == old(alloc.Count(x)) + multiset(freed[..i])[x]
    {
      ghost var before := alloc.lists;
      alloc.FreeRun(freed[i], 1);
      assert freed[..i + 1] == freed[..i] + [freed[i]];
      assert Alloc.Kept(before, alloc.lists, freed[i], 1, 0);
    }
    assert freed[..|freed|] == freed;
  }

  /** With the allocator: its lists gain every block that is not pinned, once, and
      nothing else. */
  method RecycleInto(alloc: Alloc.BlockAllocator, blocks: Blocks, head: nat, tail: nat, links: Links, pins: seq<nat>,
                     ghost orphans: seq<nat>, ghost list: seq<nat>)
    returns (r: Option<Recycled>)
    requires LinksOk(blocks, tail) && OldList(blocks, head, tail, list) && head in blocks && tail != 0
    requires forall t | 0 <= t < |pins| :: pins[t] == 0 || pins[t] in blocks
    requires Listed(links, orphans) && Apart(links, list) && forall x | x in list :: x !in orphans
    requires alloc.Valid()
    modifies alloc`lists
    ensures alloc.Valid() && (r.None? <==> 0 in pins) && (r.None? ==> alloc.lists == old(alloc.lists))
    ensures r.Some? ==> forall x: nat ::
        alloc.Count(x) == old(alloc.Count(x)) + if Unpinned(blocks, tail, orphans + list, pins, x) then 1 else 0
  {
    r := Recycle(blocks, head, tail, links, pins, orphans, list);
    if r.Some? {
      FreedIff(r.value.freed, blocks, tail, orphans + list, pins, 0);
      FreeBlocks(alloc, r.value.freed);
    }
  }

  /** Only the meta block and the blocks of `xs` may have other links. */
  ghost predicate LinksKept(links: Links, links': Links, xs: seq<nat>)
  {
    links'.Keys == links.Keys && forall x | x in links && x != 0 && x !in xs :: links'[x] == links[x]
  }

  lemma LinksStay(links: Links, links1: Links, links2: Links, orphans: seq<nat>, list: seq<nat>, pinned: set<nat>,
                  n: nat)
    requires n <= |list| && Walked(links, links1, orphans, |orphans|, Keep(orphans, pinned))
    requires Hung(links1, links2, Stop(orphans, |orphans|), list[n..])
    ensures LinksKept(links, links2, orphans + list)
  {
    forall x | x in links && x != 0 && x !in orphans + list ensures links2[x] == links[x] {
      KeepIn(orphans, pinned, x);
      assert x != Stop(orphans, |orphans|) && x !in list[n..];
    }
  }

  lemma ReachedIn(blocks: Blocks, tail: nat, pins: seq<nat>, x: nat)
    requires tail in blocks
    ensures ReachedByPin(blocks, tail, pins, x) <==> x in PinnedSet(blocks, tail, pins)
  {
    if ReachedByPin(blocks, tail, pins, x) {
      var t, k: nat :| 0 <= t < |pins| && Reaches(blocks, tail, pins[t], x, k);
      assert Hop(blocks, pins[t], k) in blocks;
    }
  }

  lemma StaysApart(links: Links, links1: Links, orphans: seq<nat>, list: seq<nat>, pinned: set<nat>)
    requires Listed(links, orphans) && Apart(links, list) && (forall x | x in list :: x !in orphans)
    requires Walked(links, links1, orphans, |orphans|, Keep(orphans, pinned))
    ensures Apart(links1, list) && Stop(orphans, |orphans|) !in list
  {
    forall x | x in list ensures x in links1 && links1[x] == 0 { KeepIn(orphans, pinned, x); }
  }

  /** From the first pinned block on, the whole old list is pinned. */
  lemma ListIsSplit(blocks: Blocks, head: nat, tail: nat, list: seq<nat>, pinned: set<nat>, n: nat, more: seq<nat>)
    requires tail in blocks && OldList(blocks, head, tail, list) && Closed(blocks, tail, pinned)
    requires n <= |list| && more == list[..n] && (forall i | 0 <= i < n :: list[i] !in pinned)
    requires n < |list| ==> list[n] in pinned
    ensures more == Drop(list, pinned) && Keep(list, pinned) == list[n..]
  {
    if n < |list| {
      forall i | n <= i < |list| ensures list[i] in pinned { PinnedTail(blocks, head, tail, list, pinned, n, i); }
    }
    KeepSuffix(list, pinned, n);
  }

  lemma Settled(links1: Links, links2: Links, orphans: seq<nat>, list: seq<nat>, pinned: set<nat>, n: nat)
    requires Listed(links1, Keep(orphans, pinned)) && Apart(links1, list) && (forall x | x in list :: x !in orphans)
    requires n <= |list| && Keep(list, pinned) == list[n..] && 0 !in orphans && Distinct(orphans)
    requires Hung(links1, links2, Stop(orphans, |orphans|), list[n..])
    ensures Listed(links2, OrphansAfter(orphans, list, pinned))
  {
    var kept, m := Keep(orphans, pinned), |orphans| - 1;
    assert Apart(links1, list[n..]) by { assert forall x | x in list[n..] :: x in list; }
    forall x | x in list[n..] ensures x !in kept { KeepIn(orphans, pinned, x); }
    if EndsOnList(orphans, pinned) {
      if orphans != [] { assert kept == Keep(orphans[..m], pinned) + [orphans[m]]; }
      HungBehind(links1, links2, kept, list[n..]);
    } else {
      KeepIn(orphans, pinned, orphans[m]);
      HungElsewhere(links1, links2, kept, orphans[m], list[n..]);
      assert OrphansAfter(orphans, list, pinned) == kept;
    }
  }

  /** Every block that is kept can be found by a later collection exactly if the
      last orphan is kept, there is none, or nothing of the old list is kept. */
  lemma KeptIsListedIff(orphans: seq<nat>, list: seq<nat>, pinned: set<nat>)
    requires forall x | x in list :: x !in orphans
    ensures (forall x | x in orphans + list && x in pinned :: x in OrphansAfter(orphans, list, pinned)) <==>
              EndsOnList(orphans, pinned) || Keep(list, pinned) == []
  {
    var after := OrphansAfter(orphans, list, pinned);
    if EndsOnList(orphans, pinned) || Keep(list, pinned) == [] {
      forall x | x in orphans + list && x in pinned ensures x in after {
        KeepIn(orphans, pinned, x);
        KeepIn(list, pinned, x);
      }
    } else {
      var x := Keep(list, pinned)[0];
      KeepIn(orphans, pinned, x);
      KeepIn(list, pinned, x);
      assert x in orphans + list && x !in after;
    }
  }

  /** From the last block before the tail a thread comes to no other one. */
  lemma LastBlock(blocks: Blocks, tail: nat, b: nat, x: nat)
    requires tail in blocks && b in blocks && Below(blocks, b, tail) && blocks[b].next == tail
    ensures ReachedByPin(blocks, tail, [b], x) <==> x == b
  {
    if x == b {
      assert Hop(blocks, b, 0) == b && Reaches(blocks, tail, [b][0], x, 0);
    }
    if ReachedByPin(blocks, tail, [b], x) {
      var t, k: nat :| 0 <= t < |[b]| && Reaches(blocks, tail, [b][t], x, k);
      assert Hop(blocks, b, 0) == b && Hop(blocks, b, 1) == tail;
    }
  }

  /** One orphan that nobody has pinned any more, and an old list whose second block
      is pinned: block 6 is kept, but is on no list. */
  method LostBlock() returns (r: Option<Recycled>)
    ensures r.Some? && Listed(r.value.links, []) && forall x: nat :: x in r.value.freed <==> x == 4 || x == 5
  {
    var blocks := map[4 := TxBlock([], 7, 2), 5 := TxBlock([], 6, 3), 6 := TxBlock([], 7, 4), 7 := TxBlock([], 0, 5)];
    var links := map[0 := 4, 4 := 0, 5 := 0, 6 := 0, 7 := 0];
    assert Listed(links, [4]) by { assert StopOk(links, [4], 0) && StopOk(links, [4], 1); }
    assert OldList(blocks, 5, 7, [5, 6]) && LinksOk(blocks, 7);
    r := Recycle(blocks, 5, 7, links, [6], [4], [5, 6]);
    LostList(blocks);
    forall x: nat ensures x in r.value.freed <==> x == 4 || x == 5 {
      FreedIff(r.value.freed, blocks, 7, [4] + [5, 6], [6], x);
    }
  }

  lemma LostList(blocks: Blocks)
    requires 6 in blocks && 7 in blocks && Below(blocks, 6, 7) && blocks[6].next == 7
    ensures OrphansAfter([4], [5, 6], PinnedSet(blocks, 7, [6])) == []
    ensures forall x :: Unpinned(blocks, 7, [4] + [5, 6], [6], x) <==> x == 4 || x == 5
  {
    var pinned := PinnedSet(blocks, 7, [6]);
    forall x ensures ReachedByPin(blocks, 7, [6], x) <==> x == 6 { LastBlock(blocks, 7, 6, x); }
    assert Keep([4], pinned) == Keep([4][..0], pinned) == [];
  }
}
