/** Committers flush everything before a new cache line, and the stores of one line
    reach memory in order: then a crash leaves no entry behind an empty slot. */
module CrashLines {
  import opened Layout
  import opened Entry
  import opened TxLog
  import opened TxLogSafety
  import opened Crash
  import opened CrashSafety

  // Slots in a cache line.
  const LINE: nat := 8

  /** Who appends the first entry of a line has flushed everything before it. */
  ghost predicate Careful(s: CState, a: CAction)
    requires CEnabled(s, a)
  {
    a.Tx? && a.a.Append? && s.tx.threads[a.a.t].cursor.local % LINE == 0 ==>
      exists u :: 0 <= u < |s.syncs| && HasFlushed(s.syncs[u], s.tx.threads[a.a.t].cursor)
  }

  predicate HasFlushed(y: Sync, c: Cursor) { (y.Flushed? || y.Synced?) && y.end == c }

  ghost predicate LineNext(s: CState, s': CState) { exists a :: CEnabled(s, a) && Careful(s, a) && s' == CDo(s, a) }

  ghost predicate LineRun(run: seq<CState>)
  {
    run != [] && CInit(run[0]) && forall i | 0 <= i < |run| - 1 :: LineNext(run[i], run[i + 1])
  }

  /* The invariant: all entries of the log are before `c` or in the line that starts there. */

  function LineEnd(c: Cursor): nat { Min(c.local + LINE, Cap(c.block)) }

  ghost predicate LineInv(s: CState, chain: seq<nat>, c: Cursor)
  {
    && Safe(s, chain, c) && c.local % LINE == 0 && c.local < Cap(c.block)
    && |Log(s.tx.blocks, chain)| <= Start(s.tx.blocks, chain, s.tx.blocks[c.block].txSeq) + LineEnd(c)
  }

  lemma StartKept(s: State, chain: seq<nat>, a: Action, chain': seq<nat>, c: Cursor)
    requires Inv(s, chain) && Enabled(s, a) && Inv(Do(s, a), chain') && chain <= chain'
    requires CursorOk(s.blocks, chain, c) && CursorOk(Do(s, a).blocks, chain', c)
    ensures Do(s, a).blocks[c.block].txSeq == s.blocks[c.block].txSeq
    ensures Start(Do(s, a).blocks, chain', s.blocks[c.block].txSeq) == Start(s.blocks, chain, s.blocks[c.block].txSeq)
  {
    forall i | 0 <= i < |chain| - 1 ensures SlotsOf(Do(s, a).blocks, chain[i]) == SlotsOf(s.blocks, chain[i]) {
      StepFrame(s, chain, a, i);
    }
    StepFrame(s, chain, a, s.blocks[c.block].txSeq);
    PosFrame(s.blocks, chain, Do(s, a).blocks, chain', c);
  }

  /** An append that does not start a line stays in the line. */
  lemma InsideLine(blocks: map<nat, TxBlock>, chain: seq<nat>, c: Cursor, k: Cursor)
    requires IsChain(blocks, chain) && CursorOk(blocks, chain, c) && CursorOk(blocks, chain, k)
    requires c.local % LINE == 0 && k.local % LINE != 0 && k.local < Cap(k.block)
    requires |Log(blocks, chain)| <= Start(blocks, chain, blocks[c.block].txSeq) + LineEnd(c)
    requires Pos(blocks, chain, k) == |Log(blocks, chain)|
    ensures |Log(blocks, chain)| + 1 <= Start(blocks, chain, blocks[c.block].txSeq) + LineEnd(c)
  {
    var i, n := blocks[c.block].txSeq, |chain| - 1;
    SlotAtCursor(blocks, chain, k);
    assert NodeOk(blocks, chain[n], n);
    if i < n { PastBlock(blocks, chain, i, n); }
    LineGoesOn(Start(blocks, chain, i), Start(blocks, chain, n), c.local, k.local, Cap(c.block), i == n);
  }

  /** The arithmetic of that: `i` and `n` are where the two blocks start. */
  lemma LineGoesOn(i: nat, n: nat, start: nat, k: nat, cap: nat, same: bool)
    requires start % LINE == 0 && k % LINE != 0 && n + k <= i + Min(start + LINE, cap)
    requires if same then i == n && k < cap else i + cap <= n
    ensures n + k + 1 <= i + Min(start + LINE, cap)
  {
  }

  /** An append, which starts a new line ... */
  lemma AppendStarts(s: CState, s': CState, chain: seq<nat>, t: nat, e: TxEntry, chain': seq<nat>)
    requires CInv(s, chain) && CEnabled(s, Tx(Append(t, e))) && Careful(s, Tx(Append(t, e)))
    requires s' == CDo(s, Tx(Append(t, e))) && CInv(s', chain') && chain' == chain
    requires s.tx.threads[t].cursor.local % LINE == 0 && CursorOk(s.tx.blocks, chain, s.tx.threads[t].cursor)
    requires Pos(s.tx.blocks, chain, s.tx.threads[t].cursor) == |Log(s.tx.blocks, chain)|
    requires |Log(s'.tx.blocks, chain')| == |Log(s.tx.blocks, chain)| + 1
    ensures LineInv(s', chain', s.tx.threads[t].cursor)
  {
    FlushedAt(s, chain, t, e);
    FlushedAfter(s, chain, t, e, chain');
    StartKept(s.tx, chain, Append(t, e), chain', s.tx.threads[t].cursor);
  }

  /** ... or stays in the old one. */
  lemma AppendStays(s: CState, s': CState, chain: seq<nat>, t: nat, e: TxEntry, c: Cursor, chain': seq<nat>)
    requires LineInv(s, chain, c) && CEnabled(s, Tx(Append(t, e))) && s' == CDo(s, Tx(Append(t, e)))
    requires Safe(s', chain', c) && chain' == chain && CursorOk(s.tx.blocks, chain, s.tx.threads[t].cursor)
    requires Pos(s.tx.blocks, chain, s.tx.threads[t].cursor) == |Log(s.tx.blocks, chain)| ==>
               s.tx.threads[t].cursor.local % LINE != 0
    requires |Log(s'.tx.blocks, chain')| == |Log(s.tx.blocks, chain)|
        + if Pos(s.tx.blocks, chain, s.tx.threads[t].cursor) == |Log(s.tx.blocks, chain)| then 1 else 0
    ensures LineInv(s', chain', c)
  {
    StartKept(s.tx, chain, Append(t, e), chain', c);
    if Pos(s.tx.blocks, chain, s.tx.threads[t].cursor) == |Log(s.tx.blocks, chain)| {
      InsideLine(s.tx.blocks, chain, c, s.tx.threads[t].cursor);
    }
  }

  lemma AppendLine(s: CState, s': CState, chain: seq<nat>, t: nat, e: TxEntry, c: Cursor, chain': seq<nat>)
    returns (c': Cursor)
    requires LineInv(s, chain, c) && CEnabled(s, Tx(Append(t, e))) && Careful(s, Tx(Append(t, e)))
    requires s' == CDo(s, Tx(Append(t, e))) && Safe(s', chain', c)
    ensures LineInv(s', chain', c')
  {
    var k := s.tx.threads[t].cursor;
    AppendStep(s.tx, chain, t, e);
    SameChain(s'.tx.blocks, chain, chain');
    if Pos(s.tx.blocks, chain, k) == |Log(s.tx.blocks, chain)| && k.local % LINE == 0 {
      c' := k;
      AppendStarts(s, s', chain, t, e, chain');
    } else {
      c' := c;
      AppendStays(s, s', chain, t, e, c, chain');
    }
  }

  lemma FlushedAt(s: CState, chain: seq<nat>, t: nat, e: TxEntry)
    requires CInv(s, chain) && CEnabled(s, Tx(Append(t, e))) && Careful(s, Tx(Append(t, e)))
    requires s.tx.threads[t].cursor.local % LINE == 0
    ensures Safe(s, chain, s.tx.threads[t].cursor)
  {
    var u :| 0 <= u < |s.syncs| && HasFlushed(s.syncs[u], s.tx.threads[t].cursor);
    assert SyncOk(s, chain, s.syncs[u]);
  }

  lemma FlushedAfter(s: CState, chain: seq<nat>, t: nat, e: TxEntry, chain': seq<nat>)
    requires CEnabled(s, Tx(Append(t, e))) && Safe(s, chain, s.tx.threads[t].cursor)
    requires CInv(CDo(s, Tx(Append(t, e))), chain')
    ensures Safe(CDo(s, Tx(Append(t, e))), chain', s.tx.threads[t].cursor)
  {
    LogKept(s.tx, chain, Append(t, e), chain');
    FlushedKept(s.disk, s.tx, chain, Append(t, e), chain', s.tx.threads[t].cursor);
  }

  lemma OtherLine(s: CState, s': CState, chain: seq<nat>, a: CAction, c: Cursor, chain': seq<nat>)
    requires LineInv(s, chain, c) && CEnabled(s, a) && s' == CDo(s, a) && Safe(s', chain', c)
    requires !(a.Tx? && a.a.Append?)
    ensures LineInv(s', chain', c)
  {
    if a.Tx? {
      LogKept(s.tx, chain, a.a, chain');
      StartKept(s.tx, chain, a.a, chain', c);
    } else {
      SameChain(s.tx.blocks, chain, chain');
    }
  }

  lemma LineStep(s: CState, s': CState, chain: seq<nat>, c: Cursor) returns (chain': seq<nat>, c': Cursor)
    requires LineInv(s, chain, c) && LineNext(s, s')
    ensures LineInv(s', chain', c')
  {
    var a :| CEnabled(s, a) && Careful(s, a) && s' == CDo(s, a);
    chain' := StepFlushed(s, s', chain, c);
    if a.Tx? && a.a.Append? {
      c' := AppendLine(s, s', chain, a.a.t, a.a.e, c, chain');
    } else {
      c' := c;
      OtherLine(s, s', chain, a, c, chain');
    }
  }

  lemma InitLine(s: CState)
    requires CInit(s)
    ensures LineInv(s, [0], Cursor(0, 0))
  {
    CInitInv(s);
    EmptyIsEmpty(0, 0);
    assert [0][..0] == [];
    assert Log(s.tx.blocks, [0]) == [] + Filled(SlotsOf(s.tx.blocks, 0));
  }

  lemma {:induction false} LineRunInv(run: seq<CState>, i: nat) returns (chain: seq<nat>, c: Cursor)
    requires LineRun(run) && i < |run|
    ensures LineInv(run[i], chain, c)
  {
    if i == 0 {
      InitLine(run[0]);
      chain, c := [0], Cursor(0, 0);
    } else {
      var chain0, c0 := LineRunInv(run, i - 1);
      assert LineNext(run[i - 1], run[i]);
      chain, c := LineStep(run[i - 1], run[i], chain0, c0);
    }
  }

  /* Crash images. */

  /** Of the entries in one line, the image has the first ones. */
  ghost predicate InOrder(img: TxBlock)
  {
    forall j, k | 0 <= j < k < |img.slots| && j / LINE == k / LINE && img.slots[k].Some? :: img.slots[j].Some?
  }

  /** The image of the block of `c` is recovered up to its first empty slot. */
  lemma {:induction false} RecoversBlock(s: CState, chain: seq<nat>, img: map<nat, TxBlock>, i: nat, c: Cursor)
    requires DiskOk(s, chain) && i < |chain| && TornFrom(s, chain, img, i)
    requires FlushedTo(s.disk, s.tx.blocks, chain, c) && i <= s.tx.blocks[c.block].txSeq
    ensures c.block in img
    ensures Start(s.tx.blocks, chain, i) + |Recovered(img, chain[i])|
         >= Start(s.tx.blocks, chain, s.tx.blocks[c.block].txSeq) + |Filled(img[c.block].slots)|
    decreases |chain| - i
  {
    var blocks, b := s.tx.blocks, chain[i];
    assert NodeOk(blocks, b, i) && DiskBlockOk(s.disk, blocks, b);
    if i < blocks[c.block].txSeq {
      assert BlockSafe(s.disk, blocks, b) && LinkOk(blocks, chain[i], chain[i + 1]);
      TornEntries(s.disk, blocks, b, img[b], Cap(b));
      NextTorn(s, chain, img, i);
      RecoversBlock(s, chain, img - {b}, i + 1, c);
      StartNext(blocks, chain, i);
    }
  }

  /** An entry of the image in the line of `c` follows no empty slot. */
  lemma NoGap(s: CState, chain: seq<nat>, img: map<nat, TxBlock>, c: Cursor, j: nat)
    requires LineInv(s, chain, c) && CrashImage(s, img) && c.block in img && InOrder(img[c.block])
    requires c.local <= j < |img[c.block].slots| && j / LINE == c.local / LINE && img[c.block].slots[j].Some?
    ensures j < |Filled(img[c.block].slots)|
  {
    var n := s.tx.blocks[c.block].txSeq;
    assert NodeOk(s.tx.blocks, chain[n], n) && DiskBlockOk(s.disk, s.tx.blocks, chain[n]);
    TornEntries(s.disk, s.tx.blocks, c.block, img[c.block], c.local);
    LineIsFilled(img[c.block], c.local, j);
  }

  lemma LineIsFilled(img: TxBlock, start: nat, j: nat)
    requires InOrder(img) && start <= j < |img.slots| && j / LINE == start / LINE && img.slots[j].Some?
    requires start <= |Filled(img.slots)|
    ensures j < |Filled(img.slots)|
  {
    assert forall k | start <= k <= j :: k / LINE == j / LINE;
  }

  /** An entry of the image is one of the log. */
  lemma WasStored(s: CState, chain: seq<nat>, img: map<nat, TxBlock>, i: nat, j: nat)
    requires CInv(s, chain) && CrashImage(s, img) && i < |chain| && chain[i] in img
    requires j < |img[chain[i]].slots| && img[chain[i]].slots[j].Some?
    ensures chain[i] in s.tx.blocks && j < |Filled(s.tx.blocks[chain[i]].slots)|
    ensures Start(s.tx.blocks, chain, i) + j < |Log(s.tx.blocks, chain)|
  {
    assert NodeOk(s.tx.blocks, chain[i], i) && DiskBlockOk(s.disk, s.tx.blocks, chain[i]);
    assert s.tx.blocks[chain[i]].slots[j].Some?;
    if i + 1 < |chain| { assert LinkOk(s.tx.blocks, chain[i], chain[i + 1]); }
    LogHolds(s.tx.blocks, chain, i, j);
  }

  /** In every reachable state and for every crash image that keeps lines in order,
      recovery reads every entry that the image has: no entry stays behind an empty
      slot, to come back when later commits fill the gap. */
  lemma NothingBehindGap(run: seq<CState>, n: nat, img: map<nat, TxBlock>, chain: seq<nat>, i: nat, j: nat)
    requires LineRun(run) && n < |run| && CrashImage(run[n], img) && IsChain(run[n].tx.blocks, chain)
    requires i < |chain| && chain[i] in img && InOrder(img[chain[i]])
    requires j < |img[chain[i]].slots| && img[chain[i]].slots[j].Some?
    ensures Start(run[n].tx.blocks, chain, i) + j < |Recovered(img, 0)|
  {
    var chain2, c := LineRunInv(run, n);
    SameChain(run[n].tx.blocks, chain, chain2);
    ReadsAll(run[n], chain, img, c, i, j);
  }

  lemma ReadsAll(s: CState, chain: seq<nat>, img: map<nat, TxBlock>, c: Cursor, i: nat, j: nat)
    requires LineInv(s, chain, c) && CrashImage(s, img) && i < |chain| && chain[i] in img && InOrder(img[chain[i]])
    requires j < |img[chain[i]].slots| && img[chain[i]].slots[j].Some?
    ensures Start(s.tx.blocks, chain, i) + j < |Recovered(img, 0)|
  {
    ImageIsTorn(s, chain, img);
    RecoversFlushed(s, chain, img, 0, c);
    RecoversBlock(s, chain, img, 0, c);
    WasStored(s, chain, img, i, j);
    assert chain[..0] == [];
    var m := s.tx.blocks[c.block].txSeq;
    assert NodeOk(s.tx.blocks, chain[i], i) && NodeOk(s.tx.blocks, chain[m], m);
    if i < m {
      PastBlock(s.tx.blocks, chain, i, m);
    } else if m < i {
      PastBlock(s.tx.blocks, chain, m, i);
    } else if c.local <= j {
      assert j / LINE == c.local / LINE;
      NoGap(s, chain, img, c, j);
    }
  }
}
