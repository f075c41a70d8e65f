/** The slot chain only grows: racing appends and racing links implement a log
    to which each successful compare-and-swap adds one entry at the end. */
module TxLogSafety {
  import opened Layout
  import opened Entry
  import opened TxLog

  /* Facts about slots and chains. */

  lemma {:induction false} FilledIs(slots: seq<Option<TxEntry>>, es: seq<TxEntry>)
    requires |es| <= |slots| && forall j | 0 <= j < |es| :: slots[j] == Some(es[j])
    requires |es| < |slots| ==> slots[|es|].None?
    ensures Filled(slots) == es
  {
    var fs := Filled(slots);
    assert |fs| >= |es|;
    assert |fs| <= |es|;
  }

  lemma {:induction false} FilledPut(slots: seq<Option<TxEntry>>, e: TxEntry)
    requires GapFree(slots) && |Filled(slots)| < |slots|
    ensures var slots' := slots[|Filled(slots)| := Some(e)];
            Filled(slots') == Filled(slots) + [e] && GapFree(slots')
  {
    FilledIs(slots[|Filled(slots)| := Some(e)], Filled(slots) + [e]);
  }

  /** More entries, none of them changed. */
  lemma {:induction false} FilledGrows(slots: seq<Option<TxEntry>>, slots': seq<Option<TxEntry>>)
    requires |slots'| == |slots| && forall j | 0 <= j < |slots| && slots[j].Some? :: slots'[j] == slots[j]
    ensures |Filled(slots)| <= |Filled(slots')|
    ensures |Filled(slots)| == |slots| ==> slots' == slots
  {
    var k := |Filled(slots')|;
    assert k < |slots| ==> slots'[k].None?;
    assert forall j | 0 <= j < |Filled(slots)| :: slots[j].Some?;
    if |Filled(slots)| == |slots| {
      assert forall j | 0 <= j < |slots| :: slots[j] == Some(Filled(slots)[j]);
    }
  }

  lemma EmptyIsEmpty(b: nat, txSeq: nat)
    ensures Filled(EmptyBlock(b, txSeq).slots) == [] && GapFree(EmptyBlock(b, txSeq).slots)
  {
    FilledIs(EmptyBlock(b, txSeq).slots, []);
  }

  lemma {:induction false} LogFrame(blocks: map<nat, TxBlock>, blocks': map<nat, TxBlock>, chain: seq<nat>)
    requires forall i | 0 <= i < |chain| :: SlotsOf(blocks', chain[i]) == SlotsOf(blocks, chain[i])
    ensures Log(blocks', chain) == Log(blocks, chain)
  {
    if chain != [] {
      LogFrame(blocks, blocks', chain[..|chain| - 1]);
    }
  }

  /** Where the entries of the `i`-th block of the chain start. */
  ghost function Start(blocks: map<nat, TxBlock>, chain: seq<nat>, i: nat): nat
    requires i <= |chain|
  {
    |Log(blocks, chain[..i])|
  }

  /** The log position that a cursor stands for. */
  ghost function Pos(blocks: map<nat, TxBlock>, chain: seq<nat>, c: Cursor): nat
    requires CursorOk(blocks, chain, c)
  {
    Start(blocks, chain, blocks[c.block].txSeq) + c.local
  }

  lemma StartNext(blocks: map<nat, TxBlock>, chain: seq<nat>, i: nat)
    requires i < |chain|
    ensures Start(blocks, chain, i + 1) == Start(blocks, chain, i) + |Filled(SlotsOf(blocks, chain[i]))|
  {
    assert chain[..i + 1][..i] == chain[..i];
  }

  /** A block's entries sit in the log from its start on. */
  lemma {:induction false} LogAt(blocks: map<nat, TxBlock>, chain: seq<nat>, n: nat, i: nat, j: nat)
    requires i < n <= |chain| && j < |Filled(SlotsOf(blocks, chain[i]))|
    ensures Start(blocks, chain, i) + j < Start(blocks, chain, n)
    ensures Log(blocks, chain[..n])[Start(blocks, chain, i) + j] == Filled(SlotsOf(blocks, chain[i]))[j]
  {
    assert chain[..n][..n - 1] == chain[..n - 1];
    StartNext(blocks, chain, n - 1);
    if i < n - 1 {
      LogAt(blocks, chain, n - 1, i, j);
    }
  }

  lemma {:induction false} StartMono(blocks: map<nat, TxBlock>, chain: seq<nat>, i: nat, k: nat)
    requires i <= k <= |chain|
    ensures Start(blocks, chain, i) <= Start(blocks, chain, k)
  {
    if i < k {
      StartMono(blocks, chain, i, k - 1);
      StartNext(blocks, chain, k - 1);
    }
  }

  /** A block with a successor is full. */
  lemma PastBlock(blocks: map<nat, TxBlock>, chain: seq<nat>, i: nat, n: nat)
    requires IsLog(blocks, chain) && i < n < |chain|
    ensures Start(blocks, chain, i) + Cap(chain[i]) <= Start(blocks, chain, n)
  {
    assert NodeOk(blocks, chain[i], i) && LinkOk(blocks, chain[i], chain[i + 1]);
    StartNext(blocks, chain, i);
    StartMono(blocks, chain, i + 1, n);
  }

  lemma CapIsReached(blocks: map<nat, TxBlock>, chain: seq<nat>, c: Cursor)
    requires IsLog(blocks, chain) && CursorOk(blocks, chain, c)
    ensures c.local <= Cap(c.block)
    ensures blocks[c.block].next == 0 ==> blocks[c.block].txSeq == |chain| - 1
    ensures blocks[c.block].next != 0 && (c.local >= Cap(c.block) || blocks[chain[|chain| - 1]].next == 0) ==>
        blocks[c.block].txSeq + 1 < |chain| && blocks[c.block].next == chain[blocks[c.block].txSeq + 1]
    ensures blocks[c.block].txSeq < |chain| - 1 ==> |Filled(blocks[c.block].slots)| == Cap(c.block)
  {
    var i := blocks[c.block].txSeq;
    assert NodeOk(blocks, chain[i], i);
    if i < |chain| - 1 { assert LinkOk(blocks, chain[i], chain[i + 1]); }
  }

  /* Preservation of the invariant, step by step. */

  /** Steps that only move thread `t`'s cursor. */
  lemma MoveStep(s: State, chain: seq<nat>, t: nat, c: Cursor)
    requires Inv(s, chain) && t < |s.threads| && s.threads[t].linking == 0 && CursorOk(s.blocks, chain, c)
    ensures Inv(s.(threads := s.threads[t := s.threads[t].(cursor := c)]), chain)
  {
    var s' := s.(threads := s.threads[t := s.threads[t].(cursor := c)]);
    forall u | 0 <= u < |s'.threads| ensures ThreadOk(s', chain, s'.threads[u]) {
      assert ThreadOk(s, chain, s.threads[u]);
    }
  }

  lemma OverOk(blocks: map<nat, TxBlock>, chain: seq<nat>, c: Cursor)
    requires IsLog(blocks, chain) && CursorOk(blocks, chain, c)
    requires c.local >= Cap(c.block) && blocks[c.block].next != 0
    ensures CursorOk(blocks, chain, Over(c, blocks[c.block].next))
    ensures Pos(blocks, chain, Over(c, blocks[c.block].next)) == Pos(blocks, chain, c)
  {
    CapIsReached(blocks, chain, c);
    StartNext(blocks, chain, blocks[c.block].txSeq);
  }

  lemma TakeStep(s: State, chain: seq<nat>, t: nat, b: nat)
    requires Inv(s, chain) && Enabled(s, Take(t, b))
    ensures Inv(Do(s, Take(t, b)), chain)
  {
    var s' := Do(s, Take(t, b));
    assert ThreadOk(s, chain, s.threads[t]);
    CapIsReached(s.blocks, chain, s.threads[t].cursor);
    assert b !in chain && b != 0;
    EmptyIsEmpty(b, 0);
    forall u | 0 <= u < |s'.threads| ensures ThreadOk(s', chain, s'.threads[u]) {
      assert ThreadOk(s, chain, s.threads[u]);
      assert s.threads[u].cursor.block in chain;
    }
    forall u, w | 0 <= u < w < |s'.threads| && Held(s'.threads[u]) != 0
      ensures Held(s'.threads[u]) != Held(s'.threads[w])
    {
      assert ThreadOk(s, chain, s.threads[u]) && ThreadOk(s, chain, s.threads[w]);
    }
  }

  lemma {:induction false} LinkChain(blocks: map<nat, TxBlock>, chain: seq<nat>, c: Cursor, b: nat)
    requires IsChain(blocks, chain) && CursorOk(blocks, chain, c)
    requires c.local >= Cap(c.block) && blocks[c.block].next == 0
    requires b != 0 && b !in chain && Blank(blocks, b) && blocks[b].txSeq == blocks[c.block].txSeq + 1
    ensures var blocks' := blocks[c.block := blocks[c.block].(next := b)];
            IsChain(blocks', chain + [b]) && Log(blocks', chain + [b]) == Log(blocks, chain)
  {
    var blocks', chain' := blocks[c.block := blocks[c.block].(next := b)], chain + [b];
    CapIsReached(blocks, chain, c);
    EmptyIsEmpty(b, blocks[b].txSeq);
    forall i | 0 <= i < |chain'| ensures NodeOk(blocks', chain'[i], i) {
      if i < |chain| { assert NodeOk(blocks, chain[i], i); }
    }
    forall i, k | 0 <= i && k == i + 1 && k < |chain'| ensures LinkOk(blocks', chain'[i], chain'[k]) {
      if k < |chain| { assert LinkOk(blocks, chain[i], chain[k]); }
    }
    assert chain'[..|chain|] == chain;
    forall i | 0 <= i < |chain| ensures SlotsOf(blocks', chain[i]) == SlotsOf(blocks, chain[i]) {
      assert NodeOk(blocks, chain[i], i);
    }
    LogFrame(blocks, blocks', chain);
  }

  lemma LinkStep(s: State, chain: seq<nat>, t: nat) returns (chain': seq<nat>)
    requires Inv(s, chain) && Enabled(s, Link(t))
    ensures Inv(Do(s, Link(t)), chain') && chain <= chain'
    ensures Log(Do(s, Link(t)).blocks, chain') == Log(s.blocks, chain)
    ensures s.threads[t].cursor.block in Do(s, Link(t)).blocks
    ensures Do(s, Link(t)).threads[t].cursor == Cursor(Do(s, Link(t)).blocks[s.threads[t].cursor.block].next, 0)
  {
    var s', th := Do(s, Link(t)), s.threads[t];
    var c := th.cursor;
    assert ThreadOk(s, chain, th);
    if s.blocks[c.block].next == 0 {
      chain' := chain + [th.linking];
      LinkChain(s.blocks, chain, c, th.linking);
      EmptyIsEmpty(th.linking, s.blocks[th.linking].txSeq);
      LinkThreads(s, chain, t);
    } else {
      chain' := chain;
      OverOk(s.blocks, chain, c);
      forall u | 0 <= u < |s'.threads| ensures ThreadOk(s', chain, s'.threads[u]) {
        assert ThreadOk(s, chain, s.threads[u]);
      }
    }
  }

  lemma LinkThreads(s: State, chain: seq<nat>, t: nat)
    requires Inv(s, chain) && Enabled(s, Link(t)) && s.blocks[s.threads[t].cursor.block].next == 0
    ensures forall u | 0 <= u < |s.threads| ::
              ThreadOk(Do(s, Link(t)), chain + [s.threads[t].linking], Do(s, Link(t)).threads[u])
  {
    var s', th := Do(s, Link(t)), s.threads[t];
    var chain' := chain + [th.linking];
    assert ThreadOk(s, chain, th);
    CapIsReached(s.blocks, chain, th.cursor);
    forall u | 0 <= u < |s'.threads| ensures ThreadOk(s', chain', s'.threads[u]) {
      assert ThreadOk(s, chain, s.threads[u]);
      if u != t {
        assert Held(th) != Held(s.threads[u]);
        assert Held(s.threads[u]) != 0 ==> Held(s.threads[u]) != th.cursor.block;
      }
    }
  }

  /** The chain after `e` goes into the first empty slot. */
  ghost function Put(blocks: map<nat, TxBlock>, chain: seq<nat>, e: TxEntry): map<nat, TxBlock>
    requires IsChain(blocks, chain)
    requires |Filled(blocks[chain[|chain| - 1]].slots)| < |blocks[chain[|chain| - 1]].slots|
  {
    var b := chain[|chain| - 1];
    var slots := blocks[b].slots;
    blocks[b := blocks[b].(slots := slots[|Filled(slots)| := Some(e)])]
  }

  lemma {:induction false} PutChain(blocks: map<nat, TxBlock>, chain: seq<nat>, e: TxEntry)
    requires IsChain(blocks, chain)
    requires |Filled(blocks[chain[|chain| - 1]].slots)| < |blocks[chain[|chain| - 1]].slots|
    ensures IsChain(Put(blocks, chain, e), chain)
    ensures Log(Put(blocks, chain, e), chain) == Log(blocks, chain) + [e]
  {
    FilledPut(blocks[chain[|chain| - 1]].slots, e);
    PutNodes(blocks, chain, e);
    PutLog(blocks, chain, e);
  }

  lemma PutLog(blocks: map<nat, TxBlock>, chain: seq<nat>, e: TxEntry)
    requires IsChain(blocks, chain)
    requires |Filled(blocks[chain[|chain| - 1]].slots)| < |blocks[chain[|chain| - 1]].slots|
    ensures Log(Put(blocks, chain, e), chain) == Log(blocks, chain) + [e]
  {
    var blocks', n := Put(blocks, chain, e), |chain| - 1;
    FilledPut(blocks[chain[n]].slots, e);
    LastIsAlone(blocks, chain);
    LogFrame(blocks, blocks', chain[..n]);
    assert Log(blocks', chain) == Log(blocks', chain[..n]) + Filled(SlotsOf(blocks', chain[n]));
    assert Log(blocks, chain) == Log(blocks, chain[..n]) + Filled(SlotsOf(blocks, chain[n]));
  }

  lemma LastIsAlone(blocks: map<nat, TxBlock>, chain: seq<nat>)
    requires IsLog(blocks, chain)
    ensures forall i | 0 <= i < |chain| - 1 :: chain[i] != chain[|chain| - 1]
  {
    var n := |chain| - 1;
    forall i | 0 <= i < n ensures chain[i] != chain[n] {
      assert NodeOk(blocks, chain[i], i) && NodeOk(blocks, chain[n], n);
    }
  }

  lemma PutNodes(blocks: map<nat, TxBlock>, chain: seq<nat>, e: TxEntry)
    requires IsChain(blocks, chain)
    requires |Filled(blocks[chain[|chain| - 1]].slots)| < |blocks[chain[|chain| - 1]].slots|
    ensures forall i | 0 <= i < |chain| :: NodeOk(Put(blocks, chain, e), chain[i], i)
    ensures forall i, k | 0 <= i && k == i + 1 && k < |chain| :: LinkOk(Put(blocks, chain, e), chain[i], chain[k])
  {
    var blocks' := Put(blocks, chain, e);
    LastIsAlone(blocks, chain);
    forall i | 0 <= i < |chain| ensures NodeOk(blocks', chain[i], i) { assert NodeOk(blocks, chain[i], i); }
    forall i, k | 0 <= i && k == i + 1 && k < |chain| ensures LinkOk(blocks', chain[i], chain[k]) {
      assert LinkOk(blocks, chain[i], chain[k]);
    }
  }

  /** The cursor of a thread at the end of the log points at the first empty
      slot, every other one at a filled slot. */
  lemma {:induction false} SlotAtCursor(blocks: map<nat, TxBlock>, chain: seq<nat>, c: Cursor)
    requires IsLog(blocks, chain) && CursorOk(blocks, chain, c) && c.local < Cap(c.block)
    ensures Pos(blocks, chain, c) <= |Log(blocks, chain)|
    ensures |blocks[c.block].slots| == Cap(c.block)
    ensures Pos(blocks, chain, c) < |Log(blocks, chain)| ==>
              blocks[c.block].slots[c.local] == Some(Log(blocks, chain)[Pos(blocks, chain, c)])
    ensures Pos(blocks, chain, c) == |Log(blocks, chain)| ==>
              c.block == chain[|chain| - 1] && c.local == |Filled(blocks[c.block].slots)|
  {
    var i := blocks[c.block].txSeq;
    CapIsReached(blocks, chain, c);
    assert NodeOk(blocks, chain[i], i);
    if c.local < |Filled(blocks[c.block].slots)| {
      LogHolds(blocks, chain, i, c.local);
    } else {
      LogEnds(blocks, chain);
    }
  }

  lemma LogHolds(blocks: map<nat, TxBlock>, chain: seq<nat>, i: nat, j: nat)
    requires i < |chain| && j < |Filled(SlotsOf(blocks, chain[i]))|
    ensures Start(blocks, chain, i) + j < |Log(blocks, chain)|
    ensures Log(blocks, chain)[Start(blocks, chain, i) + j] == Filled(SlotsOf(blocks, chain[i]))[j]
  {
    LogAt(blocks, chain, |chain|, i, j);
    assert chain[..|chain|] == chain;
  }

  lemma LogEnds(blocks: map<nat, TxBlock>, chain: seq<nat>)
    requires chain != []
    ensures Start(blocks, chain, |chain| - 1) + |Filled(SlotsOf(blocks, chain[|chain| - 1]))| == |Log(blocks, chain)|
  {
    StartNext(blocks, chain, |chain| - 1);
    assert chain[..|chain|] == chain;
  }

  /** The compare-and-swap of a slot. It succeeds exactly at the end of the log,
      which it extends by one entry; elsewhere it finds the entry at its position
      and changes nothing. */
  lemma {:induction false} AppendStep(s: State, chain: seq<nat>, t: nat, e: TxEntry)
    requires Inv(s, chain) && Enabled(s, Append(t, e))
    ensures Inv(Do(s, Append(t, e)), chain) && ThreadOk(s, chain, s.threads[t])
    ensures var s', c, log := Do(s, Append(t, e)), s.threads[t].cursor, Log(s.blocks, chain);
            && (Pos(s.blocks, chain, c) == |log| ==> Log(s'.blocks, chain) == log + [e])
            && (Pos(s.blocks, chain, c) != |log| ==>
                  && s' == s && Pos(s.blocks, chain, c) < |log|
                  && s.blocks[c.block].slots[c.local] == Some(log[Pos(s.blocks, chain, c)]))
  {
    var s', c := Do(s, Append(t, e)), s.threads[t].cursor;
    assert ThreadOk(s, chain, s.threads[t]);
    SlotAtCursor(s.blocks, chain, c);
    if Pos(s.blocks, chain, c) == |Log(s.blocks, chain)| {
      PutChain(s.blocks, chain, e);
      AppendThreads(s, chain, t, e);
    }
  }

  lemma AppendThreads(s: State, chain: seq<nat>, t: nat, e: TxEntry)
    requires Inv(s, chain) && Enabled(s, Append(t, e))
    requires var c := s.threads[t].cursor;
             c.block == chain[|chain| - 1] && c.local == |Filled(s.blocks[c.block].slots)|
    ensures forall u | 0 <= u < |s.threads| :: ThreadOk(Do(s, Append(t, e)), chain, s.threads[u])
  {
    var s', c := Do(s, Append(t, e)), s.threads[t].cursor;
    assert NodeOk(s.blocks, chain[|chain| - 1], |chain| - 1);
    FilledPut(s.blocks[c.block].slots, e);
    forall u | 0 <= u < |s'.threads| ensures ThreadOk(s', chain, s.threads[u]) {
      assert ThreadOk(s, chain, s.threads[u]);
      assert Held(s.threads[u]) != 0 ==> Held(s.threads[u]) != c.block;
    }
  }

  /* Whole runs. */

  lemma InitInv(s: State)
    requires Init(s)
    ensures Inv(s, [0]) && Log(s.blocks, [0]) == []
  {
    EmptyIsEmpty(0, 0);
    assert NodeOk(s.blocks, 0, 0);
    assert [0][..0] == [];
    forall t | 0 <= t < |s.threads| ensures ThreadOk(s, [0], s.threads[t]) { }
  }

  /** Every step keeps the invariant and changes the log only by a successful
      append; the chain is extended only at its end. */
  lemma StepInv(s: State, chain: seq<nat>, a: Action) returns (chain': seq<nat>)
    requires Inv(s, chain) && Enabled(s, a)
    ensures Inv(Do(s, a), chain') && chain <= chain'
    ensures Log(Do(s, a).blocks, chain') == Log(s.blocks, chain)
         || (a.Append? && Log(Do(s, a).blocks, chain') == Log(s.blocks, chain) + [a.e])
  {
    chain' := chain;
    match a
    case Rewind(t) =>
      assert NodeOk(s.blocks, chain[0], 0);
      MoveStep(s, chain, t, Cursor(0, 0));
    case Adopt(t, u) =>
      assert ThreadOk(s, chain, s.threads[u]);
      MoveStep(s, chain, t, s.threads[u].cursor);
    case Advance(t) =>
      var c := s.threads[t].cursor;
      assert ThreadOk(s, chain, s.threads[t]);
      MoveStep(s, chain, t, Cursor(c.block, c.local + 1));
    case Follow(t) =>
      var c := s.threads[t].cursor;
      assert ThreadOk(s, chain, s.threads[t]);
      OverOk(s.blocks, chain, c);
      MoveStep(s, chain, t, Over(c, s.blocks[c.block].next));
    case Take(t, b) =>
      TakeStep(s, chain, t, b);
      TakeKeeps(s, chain, t, b);
    case Link(t) =>
      chain' := LinkStep(s, chain, t);
    case Append(t, e) =>
      AppendStep(s, chain, t, e);
  }

  lemma {:induction false} TakeKeeps(s: State, chain: seq<nat>, t: nat, b: nat)
    requires Inv(s, chain) && Enabled(s, Take(t, b))
    ensures b !in chain && Log(Do(s, Take(t, b)).blocks, chain) == Log(s.blocks, chain)
  {
    assert ThreadOk(s, chain, s.threads[t]);
    LogFrame(s.blocks, Do(s, Take(t, b)).blocks, chain);
  }

  lemma {:induction false} RunInv(run: seq<State>, i: nat) returns (chain: seq<nat>)
    requires Run(run) && i < |run|
    ensures Inv(run[i], chain)
  {
    if i == 0 {
      InitInv(run[0]);
      chain := [0];
    } else {
      var chain0 := RunInv(run, i - 1);
      assert Next(run[i - 1], run[i]);
      var a :| Enabled(run[i - 1], a) && run[i] == Do(run[i - 1], a);
      chain := StepInv(run[i - 1], chain0, a);
    }
  }

  /** Two chains of the same blocks are the same. */
  lemma {:induction false} ChainUnique(blocks: map<nat, TxBlock>, chain1: seq<nat>, chain2: seq<nat>, i: nat)
    requires IsLog(blocks, chain1) && IsLog(blocks, chain2) && i < |chain1|
    ensures i < |chain2| && chain1[i] == chain2[i]
  {
    if i > 0 {
      ChainUnique(blocks, chain1, chain2, i - 1);
      assert LinkOk(blocks, chain1[i - 1], chain1[i]);
      if i < |chain2| { assert LinkOk(blocks, chain2[i - 1], chain2[i]); }
    }
  }

  /* Main results. */

  /** The log as its clients see it: a sequence and one position per thread. */
  datatype View = View(log: seq<TxEntry>, pos: seq<nat>)

  ghost function ViewOf(s: State, chain: seq<nat>): View
    requires Inv(s, chain)
  {
    View(Log(s.blocks, chain),
         seq(|s.threads|, t requires 0 <= t < |s.threads| =>
           assert ThreadOk(s, chain, s.threads[t]); Pos(s.blocks, chain, s.threads[t].cursor)))
  }

  /** One step of an append-only log: an append succeeds exactly at the end,
      and nothing else touches an entry. */
  predicate ViewStep(x: View, a: Action, x': View)
  {
    match a
    case Rewind(t) => t < |x.pos| && x' == x.(pos := x.pos[t := 0])
    case Adopt(t, u) => t < |x.pos| && u < |x.pos| && x' == x.(pos := x.pos[t := x.pos[u]])
    case Advance(t) => t < |x.pos| && x.pos[t] < |x.log| && x' == x.(pos := x.pos[t := x.pos[t] + 1])
    case Follow(_) => x' == x
    case Take(_, _) => x' == x
    case Link(_) => x' == x
    case Append(t, e) => t < |x.pos| && x' == if x.pos[t] == |x.log| then x.(log := x.log + [e]) else x
  }

  /** A cursor keeps its position while the chain grows behind it. */
  lemma PosFrame(blocks: map<nat, TxBlock>, chain: seq<nat>, blocks': map<nat, TxBlock>, chain': seq<nat>, c: Cursor)
    requires IsChain(blocks, chain) && chain <= chain'
    requires CursorOk(blocks, chain, c) && CursorOk(blocks', chain', c)
    requires blocks'[c.block].txSeq == blocks[c.block].txSeq
    requires forall i | 0 <= i < |chain| - 1 :: SlotsOf(blocks', chain[i]) == SlotsOf(blocks, chain[i])
    ensures Pos(blocks', chain', c) == Pos(blocks, chain, c)
  {
    var i := blocks[c.block].txSeq;
    assert chain'[..i] == chain[..i];
    LogFrame(blocks, blocks', chain[..i]);
  }

  /** A step leaves the slots before the last block, and all sequence numbers of
      the chain, alone. */
  lemma StepFrame(s: State, chain: seq<nat>, a: Action, i: nat)
    requires Inv(s, chain) && Enabled(s, a) && i < |chain|
    ensures chain[i] in s.blocks && chain[i] in Do(s, a).blocks
    ensures Do(s, a).blocks[chain[i]].txSeq == s.blocks[chain[i]].txSeq
    ensures i < |chain| - 1 ==> SlotsOf(Do(s, a).blocks, chain[i]) == SlotsOf(s.blocks, chain[i])
    ensures forall j | 0 <= j < |s.blocks[chain[i]].slots| <= |Do(s, a).blocks[chain[i]].slots|
        && s.blocks[chain[i]].slots[j].Some? ::
              Do(s, a).blocks[chain[i]].slots[j] == s.blocks[chain[i]].slots[j]
    ensures |Do(s, a).blocks[chain[i]].slots| == |s.blocks[chain[i]].slots|
    ensures s.blocks[chain[i]].next != 0 ==> Do(s, a).blocks[chain[i]].next == s.blocks[chain[i]].next
  {
    assert NodeOk(s.blocks, chain[i], i);
    match a
    case Take(t, b) => TakeKeeps(s, chain, t, b);
    case Append(t, e) =>
      if i < |chain| - 1 { assert LinkOk(s.blocks, chain[i], chain[i + 1]); }
    case _ =>
  }

  /** Where the acting thread ends up. */
  function Target(x: View, a: Action): nat
    requires a.t < |x.pos| && (a.Adopt? ==> a.u < |x.pos|)
  {
    match a
    case Rewind(_) => 0
    case Adopt(_, u) => x.pos[u]
    case Advance(t) => x.pos[t] + 1
    case _ => x.pos[a.t]
  }

  lemma ActorPos(s: State, chain: seq<nat>, a: Action, chain': seq<nat>)
    requires Inv(s, chain) && Enabled(s, a) && Inv(Do(s, a), chain') && chain <= chain'
    ensures ViewOf(Do(s, a), chain').pos[a.t] == Target(ViewOf(s, chain), a)
    ensures a.Advance? ==> ViewOf(s, chain).pos[a.t] < |Log(s.blocks, chain)|
  {
    assert ThreadOk(s, chain, s.threads[a.t]);
    match a
    case Link(t) => LinkPos(s, chain, t, chain');
    case Take(_, _) => KeepsPos(s, chain, a, chain', a.t);
    case Append(_, _) => KeepsPos(s, chain, a, chain', a.t);
    case _ =>
      SameChain(s.blocks, chain, chain');
      MovePos(s, chain, a);
  }

  /** Steps that move a cursor and change no block. */
  lemma MovePos(s: State, chain: seq<nat>, a: Action)
    requires Inv(s, chain) && Enabled(s, a) && Inv(Do(s, a), chain) && !a.Link? && !a.Take? && !a.Append?
    ensures ViewOf(Do(s, a), chain).pos[a.t] == Target(ViewOf(s, chain), a)
    ensures a.Advance? ==> ViewOf(s, chain).pos[a.t] < |Log(s.blocks, chain)|
  {
    assert ThreadOk(s, chain, s.threads[a.t]) && (a.Adopt? ==> ThreadOk(s, chain, s.threads[a.u]));
    MoveCursor(s, chain, a, s.threads[a.t].cursor);
  }

  lemma MoveCursor(s: State, chain: seq<nat>, a: Action, c: Cursor)
    requires IsChain(s.blocks, chain) && Enabled(s, a) && !a.Link? && !a.Take? && !a.Append?
    requires c == s.threads[a.t].cursor
    requires CursorOk(s.blocks, chain, c) && (a.Adopt? ==> CursorOk(s.blocks, chain, s.threads[a.u].cursor))
    ensures var c' := Do(s, a).threads[a.t].cursor;
            && CursorOk(s.blocks, chain, c')
            && Pos(s.blocks, chain, c') ==
                 if a.Rewind? then 0
                 else if a.Adopt? then Pos(s.blocks, chain, s.threads[a.u].cursor)
                 else if a.Advance? then Pos(s.blocks, chain, c) + 1
                 else Pos(s.blocks, chain, c)
    ensures a.Advance? ==> Pos(s.blocks, chain, c) < |Log(s.blocks, chain)|
  {
    match a
    case Rewind(_) => assert NodeOk(s.blocks, chain[0], 0) && chain[..0] == [];
    case Adopt(_, u) =>
    case Advance(t) => SlotAtCursor(s.blocks, chain, c);
    case Follow(t) => OverOk(s.blocks, chain, c);
  }

  lemma LinkPos(s: State, chain: seq<nat>, t: nat, chain': seq<nat>)
    requires Inv(s, chain) && Enabled(s, Link(t)) && Inv(Do(s, Link(t)), chain') && chain <= chain'
    ensures ViewOf(Do(s, Link(t)), chain').pos[t] == ViewOf(s, chain).pos[t]
  {
    var s', c := Do(s, Link(t)), s.threads[t].cursor;
    assert ThreadOk(s, chain, s.threads[t]);
    CapIsReached(s.blocks, chain, c);
    if s.blocks[c.block].next == 0 {
      var i := s.blocks[c.block].txSeq;
      assert NodeOk(s.blocks, chain[i], i);
      StepFrame(s, chain, Link(t), i);
      CursorStays(s, chain, t, chain');
      OverOk(s'.blocks, chain', c);
      forall k | 0 <= k < |chain| - 1 ensures SlotsOf(s'.blocks, chain[k]) == SlotsOf(s.blocks, chain[k]) {
        StepFrame(s, chain, Link(t), k);
      }
      PosFrame(s.blocks, chain, s'.blocks, chain', c);
    } else {
      SameChain(s.blocks, chain, chain');
      OverOk(s.blocks, chain, c);
    }
  }

  lemma CursorStays(s: State, chain: seq<nat>, t: nat, chain': seq<nat>)
    requires Inv(s, chain) && Enabled(s, Link(t)) && Inv(Do(s, Link(t)), chain') && chain <= chain'
    ensures CursorOk(Do(s, Link(t)).blocks, chain', s.threads[t].cursor)
  {
    assert ThreadOk(s, chain, s.threads[t]);
  }

  lemma Positions(s: State, chain: seq<nat>, a: Action, chain': seq<nat>)
    requires Inv(s, chain) && Enabled(s, a) && Inv(Do(s, a), chain') && chain <= chain'
    ensures var x, x' := ViewOf(s, chain), ViewOf(Do(s, a), chain');
            |x'.pos| == |x.pos| && x'.pos == x.pos[a.t := Target(x, a)]
  {
    var x, x' := ViewOf(s, chain), ViewOf(Do(s, a), chain');
    forall u | 0 <= u < |x.pos| ensures x'.pos[u] == x.pos[a.t := Target(x, a)][u] {
      PositionAt(s, chain, a, chain', u);
    }
  }

  lemma PositionAt(s: State, chain: seq<nat>, a: Action, chain': seq<nat>, u: nat)
    requires Inv(s, chain) && Enabled(s, a) && Inv(Do(s, a), chain') && chain <= chain' && u < |s.threads|
    ensures var x, x' := ViewOf(s, chain), ViewOf(Do(s, a), chain');
            |x'.pos| == |x.pos| && x'.pos[u] == if u == a.t then Target(x, a) else x.pos[u]
  {
    if u == a.t {
      ActorPos(s, chain, a, chain');
    } else {
      OtherCursor(s, a, u);
      KeepsPos(s, chain, a, chain', u);
    }
  }

  lemma OtherCursor(s: State, a: Action, u: nat)
    requires Enabled(s, a) && u < |s.threads| && u != a.t
    ensures u < |Do(s, a).threads| && Do(s, a).threads[u] == s.threads[u]
  {
  }

  /** The racing slot chain simulates an append-only log, step by step: this is
      the log that the commit protocol relies on. */
  lemma Simulation(s: State, chain: seq<nat>, a: Action, chain': seq<nat>)
    requires Inv(s, chain) && Enabled(s, a) && Inv(Do(s, a), chain')
    ensures ViewStep(ViewOf(s, chain), a, ViewOf(Do(s, a), chain'))
  {
    LogKept(s, chain, a, chain');
    Positions(s, chain, a, chain');
    ActorPos(s, chain, a, chain');
    var x, x' := ViewOf(s, chain), ViewOf(Do(s, a), chain');
    assert x.pos == x.pos[a.t := x.pos[a.t]];
    if a.Append? { AppendLog(s, chain, a.t, a.e, chain'); }
  }

  lemma AppendLog(s: State, chain: seq<nat>, t: nat, e: TxEntry, chain': seq<nat>)
    requires Inv(s, chain) && Enabled(s, Append(t, e)) && Inv(Do(s, Append(t, e)), chain')
    ensures var x, x' := ViewOf(s, chain), ViewOf(Do(s, Append(t, e)), chain');
            x'.log == if x.pos[t] == |x.log| then x.log + [e] else x.log
  {
    AppendStep(s, chain, t, e);
    SameChain(Do(s, Append(t, e)).blocks, chain, chain');
  }

  lemma {:induction false} LogKept(s: State, chain: seq<nat>, a: Action, chain': seq<nat>)
    requires Inv(s, chain) && Enabled(s, a) && Inv(Do(s, a), chain')
    ensures chain <= chain' && (!a.Append? ==> Log(Do(s, a).blocks, chain') == Log(s.blocks, chain))
  {
    var chain2 := StepInv(s, chain, a);
    SameChain(Do(s, a).blocks, chain2, chain');
  }

  lemma SameChain(blocks: map<nat, TxBlock>, chain1: seq<nat>, chain2: seq<nat>)
    requires IsLog(blocks, chain1) && IsLog(blocks, chain2)
    ensures chain1 == chain2
  {
    ChainUnique(blocks, chain1, chain2, |chain1| - 1);
    ChainUnique(blocks, chain2, chain1, |chain2| - 1);
    forall i | 0 <= i < |chain1| ensures chain1[i] == chain2[i] { ChainUnique(blocks, chain1, chain2, i); }
  }

  lemma KeepsPos(s: State, chain: seq<nat>, a: Action, chain': seq<nat>, u: nat)
    requires Inv(s, chain) && Enabled(s, a) && Inv(Do(s, a), chain') && chain <= chain'
    requires u < |s.threads| && Do(s, a).threads[u].cursor == s.threads[u].cursor
    ensures ViewOf(Do(s, a), chain').pos[u] == ViewOf(s, chain).pos[u]
  {
    assert ThreadOk(s, chain, s.threads[u]) && ThreadOk(Do(s, a), chain', Do(s, a).threads[u]);
    forall i | 0 <= i < |chain| - 1 ensures SlotsOf(Do(s, a).blocks, chain[i]) == SlotsOf(s.blocks, chain[i]) {
      StepFrame(s, chain, a, i);
    }
    StepFrame(s, chain, a, s.blocks[s.threads[u].cursor.block].txSeq);
    PosFrame(s.blocks, chain, Do(s, a).blocks, chain', s.threads[u].cursor);
  }

  /** Append-only: between any two states of a run the log only gains entries at
      its end, the chain only gains blocks at its end, a filled slot and a set
      link never change, and sequence numbers count up along the links. */
  lemma {:induction false} AppendOnly(run: seq<State>, i: nat, k: nat, chain: seq<nat>, chain': seq<nat>)
    requires Run(run) && i <= k < |run| && Inv(run[i], chain) && Inv(run[k], chain')
    ensures Log(run[i].blocks, chain) <= Log(run[k].blocks, chain') && chain <= chain'
    ensures forall n | 0 <= n < |chain| :: Kept(run[i].blocks, run[k].blocks, chain[n])
    decreases k - i
  {
    if i == k {
      SameChain(run[i].blocks, chain, chain');
    } else {
      assert Next(run[i], run[i + 1]);
      var a :| Enabled(run[i], a) && run[i + 1] == Do(run[i], a);
      var chain1 := StepInv(run[i], chain, a);
      AppendOnly(run, i + 1, k, chain1, chain');
      forall n | 0 <= n < |chain| ensures Kept(run[i].blocks, run[k].blocks, chain[n]) {
        StepFrame(run[i], chain, a, n);
        assert Kept(run[i + 1].blocks, run[k].blocks, chain1[n]);
      }
    }
  }

  /** Nothing that block `b` held before is lost after. */
  ghost predicate Kept(before: map<nat, TxBlock>, after: map<nat, TxBlock>, b: nat)
  {
    b in before ==>
      && b in after && |after[b].slots| == |before[b].slots| && after[b].txSeq == before[b].txSeq
      && (forall j | 0 <= j < |before[b].slots| && before[b].slots[j].Some? :: after[b].slots[j] == before[b].slots[j])
      && (before[b].next != 0 ==> after[b].next == before[b].next)
  }

  /** A block that a thread failed to link stays zeroed and unreachable for as
      long as it is spare: no link of the chain leads to it. */
  lemma SpareIsUnlinked(run: seq<State>, i: nat, t: nat, b: nat)
    requires Run(run) && i < |run| && t < |run[i].threads| && run[i].threads[t].spare != 0
    ensures var s, spare := run[i], run[i].threads[t].spare;
            && Blank(s.blocks, spare)
            && exists chain :: Inv(s, chain) && spare !in chain && (b in chain ==> s.blocks[b].next != spare)
  {
    var chain := RunInv(run, i);
    var s := run[i];
    var spare := s.threads[t].spare;
    assert ThreadOk(s, chain, s.threads[t]);
    if b in chain {
      var n :| 0 <= n < |chain| && chain[n] == b;
      assert NodeOk(s.blocks, chain[n], n);
      if n < |chain| - 1 { assert LinkOk(s.blocks, chain[n], chain[n + 1]); }
    }
  }

  /* No block is lost. */

  predicate HeldBy(s: State, t: nat, b: nat) { t < |s.threads| && b != 0 && Held(s.threads[t]) == b }

  /** Every block that was ever taken is in the chain, or some thread keeps it. */
  ghost predicate Accounted(s: State, chain: seq<nat>)
  {
    forall b | b in s.blocks && b !in chain :: exists t :: HeldBy(s, t, b)
  }

  /** A step takes a block from the pool or none. */
  lemma BlocksStep(s: State, a: Action)
    requires Enabled(s, a)
    ensures Do(s, a).blocks.Keys + Do(s, a).pool == s.blocks.Keys + s.pool
    ensures forall b | b in Do(s, a).blocks :: b in s.blocks || (a.Take? && b == a.b)
  {
    match a
    case Take(t, b) =>
    case Link(t) =>
    case Append(t, e) =>
    case _ =>
  }

  /** Who holds a block goes on holding it, unless it links it. */
  lemma HeldStep(s: State, a: Action, t: nat, b: nat)
    requires Enabled(s, a) && HeldBy(s, t, b)
    requires a.t == t ==> (s.threads[t].linking != 0 ==> s.threads[t].spare == 0)
    ensures HeldBy(Do(s, a), t, b) || (a == Link(t) && s.blocks[s.threads[t].cursor.block].next == 0)
  {
    match a
    case Take(_, _) =>
    case Link(_) =>
    case Append(_, _) =>
    case _ =>
  }

  lemma AccountedAt(s: State, chain: seq<nat>, a: Action, chain': seq<nat>, b: nat) returns (t: nat)
    requires Inv(s, chain) && Accounted(s, chain) && Enabled(s, a) && Inv(Do(s, a), chain') && chain <= chain'
    requires b in Do(s, a).blocks && b !in chain'
    ensures HeldBy(Do(s, a), t, b)
  {
    BlocksStep(s, a);
    assert ThreadOk(s, chain, s.threads[a.t]);
    if a.Take? && b == a.b {
      TakeKeeps(s, chain, a.t, b);
      t := a.t;
    } else {
      t :| HeldBy(s, t, b);
      HeldStep(s, a, t, b);
      if a == Link(t) && s.blocks[s.threads[t].cursor.block].next == 0 { LinkedIn(s, chain, t, chain'); }
    }
  }

  lemma AccountedStep(s: State, chain: seq<nat>, a: Action, chain': seq<nat>)
    requires Inv(s, chain) && Accounted(s, chain) && Enabled(s, a) && Inv(Do(s, a), chain') && chain <= chain'
    ensures Accounted(Do(s, a), chain')
  {
    forall b | b in Do(s, a).blocks && b !in chain' ensures exists t :: HeldBy(Do(s, a), t, b) {
      var t := AccountedAt(s, chain, a, chain', b);
    }
  }

  /** The block of the winner is in the chain. */
  lemma LinkedIn(s: State, chain: seq<nat>, t: nat, chain': seq<nat>)
    requires Inv(s, chain) && Enabled(s, Link(t)) && Inv(Do(s, Link(t)), chain')
    requires s.blocks[s.threads[t].cursor.block].next == 0
    ensures s.threads[t].linking in chain'
  {
    var th := s.threads[t];
    assert ThreadOk(s, chain, th);
    LinkChain(s.blocks, chain, th.cursor, th.linking);
    SameChain(Do(s, Link(t)).blocks, chain + [th.linking], chain');
  }

  lemma {:induction false} RunAccounted(run: seq<State>, i: nat) returns (chain: seq<nat>)
    requires Run(run) && i < |run|
    ensures Inv(run[i], chain) && Accounted(run[i], chain)
    ensures run[i].blocks.Keys + run[i].pool == {0} + run[0].pool
  {
    if i == 0 {
      InitInv(run[0]);
      chain := [0];
    } else {
      var chain0 := RunAccounted(run, i - 1);
      assert Next(run[i - 1], run[i]);
      var a :| Enabled(run[i - 1], a) && run[i] == Do(run[i - 1], a);
      chain := StepInv(run[i - 1], chain0, a);
      AccountedStep(run[i - 1], chain0, a, chain);
      BlocksStep(run[i - 1], a);
    }
  }

  /** No transaction block is lost or used twice: each block is at all times exactly one
      of not taken yet, in the chain, or kept by one thread, as a spare or to be linked. */
  lemma EveryBlockHasPlace(run: seq<State>, i: nat, b: nat) returns (chain: seq<nat>)
    requires Run(run) && i < |run| && (b == 0 || b in run[0].pool)
    ensures Inv(run[i], chain) && (b in run[i].pool || b in chain || exists t :: HeldBy(run[i], t, b))
    ensures !(b in run[i].pool && b in chain)
    ensures forall t: nat | HeldBy(run[i], t, b) :: b !in run[i].pool && b !in chain
    ensures forall t: nat, u: nat | HeldBy(run[i], t, b) && HeldBy(run[i], u, b) :: t == u
  {
    chain := RunAccounted(run, i);
    var s := run[i];
    assert b in s.blocks.Keys + s.pool;
    forall t: nat | HeldBy(s, t, b) ensures b !in s.pool && b !in chain { assert ThreadOk(s, chain, s.threads[t]); }
    forall t: nat, u: nat | HeldBy(s, t, b) && HeldBy(s, u, b) ensures t == u {}
  }

  /** `operator<` of cursors: by slot inside a block, by sequence number across
      blocks, with the meta block first. */
  predicate Before(blocks: map<nat, TxBlock>, c: Cursor, d: Cursor)
    requires c.block in blocks && d.block in blocks
  {
    if c.block == d.block then c.local < d.local
    else if c.block == 0 then true
    else if d.block == 0 then false
    else blocks[c.block].txSeq < blocks[d.block].txSeq
  }

  /** The order of cursors is the order of log positions, except that an
      overflowed cursor counts as before the next block's first slot. */
  lemma OrderIsPosition(blocks: map<nat, TxBlock>, chain: seq<nat>, c: Cursor, d: Cursor)
    requires IsLog(blocks, chain) && CursorOk(blocks, chain, c) && CursorOk(blocks, chain, d)
    ensures Before(blocks, c, d) ==> Pos(blocks, chain, c) <= Pos(blocks, chain, d)
    ensures Pos(blocks, chain, c) < Pos(blocks, chain, d) ==> Before(blocks, c, d)
    ensures Pos(blocks, chain, c) == Pos(blocks, chain, d) && c.local < Cap(c.block) && d.local < Cap(d.block) ==>
              c == d
  {
    var i, k := blocks[c.block].txSeq, blocks[d.block].txSeq;
    assert NodeOk(blocks, chain[0], 0);
    CapIsReached(blocks, chain, c);
    CapIsReached(blocks, chain, d);
    StartNext(blocks, chain, i);
    StartNext(blocks, chain, k);
    if i < k { StartMono(blocks, chain, i + 1, k); }
    if k < i { StartMono(blocks, chain, k + 1, i); }
  }
}
