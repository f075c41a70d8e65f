/** After a crash, recovery reads a prefix of the committed log that contains
    everything flushed by a completed `fsync`. */
module CrashSafety {
  import opened Layout
  import opened Entry
  import opened TxLog
  import opened TxLogSafety
  import opened Crash

  /* The log grows under a flush. */

  lemma CursorKept(tx: TxLog.State, chain: seq<nat>, a: TxLog.Action, chain': seq<nat>, c: Cursor)
    requires Inv(tx, chain) && Enabled(tx, a) && chain <= chain' && CursorOk(tx.blocks, chain, c)
    ensures CursorOk(Do(tx, a).blocks, chain', c)
  {
    var i := tx.blocks[c.block].txSeq;
    StepFrame(tx, chain, a, i);
    FilledGrows(tx.blocks[c.block].slots, Do(tx, a).blocks[c.block].slots);
  }

  lemma SlotsKept(disk: map<nat, TxBlock>, tx: TxLog.State, chain: seq<nat>, a: TxLog.Action, i: nat, n: nat)
    requires Inv(tx, chain) && Enabled(tx, a) && i < |chain|
    requires SlotsSafe(disk, tx.blocks, chain[i], n) && n <= |Filled(tx.blocks[chain[i]].slots)|
    ensures SlotsSafe(disk, Do(tx, a).blocks, chain[i], n)
  {
    StepFrame(tx, chain, a, i);
  }

  lemma FlushedKept(disk: map<nat, TxBlock>, tx: TxLog.State, chain: seq<nat>, a: TxLog.Action, chain': seq<nat>,
                    c: Cursor)
    requires Inv(tx, chain) && Enabled(tx, a) && chain <= chain' && FlushedTo(disk, tx.blocks, chain, c)
    ensures FlushedTo(disk, Do(tx, a).blocks, chain', c)
  {
    var n := tx.blocks[c.block].txSeq;
    CursorKept(tx, chain, a, chain', c);
    StepFrame(tx, chain, a, n);
    forall i | 0 <= i < n ensures BlockSafe(disk, Do(tx, a).blocks, chain'[i]) {
      assert BlockSafe(disk, tx.blocks, chain[i]) && LinkOk(tx.blocks, chain[i], chain[i + 1]);
      SlotsKept(disk, tx, chain, a, i, Cap(chain[i]));
      StepFrame(tx, chain, a, i);
    }
    SlotsKept(disk, tx, chain, a, n, c.local);
  }

  /** Persisting a block outside the chain changes nothing that was flushed. */
  lemma FlushedElsewhere(disk: map<nat, TxBlock>, disk': map<nat, TxBlock>, blocks: map<nat, TxBlock>,
                         chain: seq<nat>, c: Cursor)
    requires FlushedTo(disk, blocks, chain, c)
    requires forall i | 0 <= i < |chain| :: Closer(disk, disk', blocks, chain[i])
    ensures FlushedTo(disk', blocks, chain, c)
  {
    forall i | 0 <= i < blocks[c.block].txSeq ensures BlockSafe(disk', blocks, chain[i]) {
      assert BlockSafe(disk, blocks, chain[i]);
      assert Closer(disk, disk', blocks, chain[i]);
    }
    assert Closer(disk, disk', blocks, chain[blocks[c.block].txSeq]);
  }

  /** Going from `disk` to `disk'` only replaces values by the stored ones. */
  ghost predicate Closer(disk: map<nat, TxBlock>, disk': map<nat, TxBlock>, blocks: map<nat, TxBlock>, b: nat)
  {
    && b in disk && b in disk' && b in blocks && |disk'[b].slots| == |disk[b].slots|
    && (forall j | 0 <= j < |disk[b].slots| && j < |blocks[b].slots| ::
          disk'[b].slots[j] == disk[b].slots[j] || disk'[b].slots[j] == blocks[b].slots[j])
    && (disk'[b].next == disk[b].next || disk'[b].next == blocks[b].next)
  }

  lemma TxDiskStep(s: CState, chain: seq<nat>, a: TxLog.Action, chain': seq<nat>)
    requires CInv(s, chain) && Enabled(s.tx, a) && Inv(Do(s.tx, a), chain') && chain <= chain'
    ensures forall i | 0 <= i < |chain'| :: DiskBlockOk(DoTx(s, a).disk, Do(s.tx, a).blocks, chain'[i])
  {
    var s' := DoTx(s, a);
    forall i | 0 <= i < |chain'| ensures DiskBlockOk(s'.disk, s'.tx.blocks, chain'[i]) {
      if i < |chain| {
        assert DiskBlockOk(s.disk, s.tx.blocks, chain[i]);
        StepFrame(s.tx, chain, a, i);
        if a.Take? { TakeKeeps(s.tx, chain, a.t, a.b); }
      } else {
        NewBlock(s, chain, a, chain', i);
      }
    }
  }

  lemma NewBlock(s: CState, chain: seq<nat>, a: TxLog.Action, chain': seq<nat>, i: nat)
    requires CInv(s, chain) && Enabled(s.tx, a) && Inv(Do(s.tx, a), chain') && chain <= chain'
    requires |chain| <= i < |chain'|
    ensures DiskBlockOk(DoTx(s, a).disk, Do(s.tx, a).blocks, chain'[i])
  {
    var chain2 := StepInv(s.tx, chain, a);
    SameChain(Do(s.tx, a).blocks, chain2, chain');
    assert ThreadOk(s.tx, chain, s.tx.threads[a.t]);
    if !a.Link? || s.tx.blocks[s.tx.threads[a.t].cursor.block].next != 0 {
      TxChainSame(s, chain, a, chain');
      assert false;
    }
    var c, b := s.tx.threads[a.t].cursor, s.tx.threads[a.t].linking;
    LinkChain(s.tx.blocks, chain, c, b);
    SameChain(Do(s.tx, a).blocks, chain + [b], chain');
    assert Blank(s.disk, b) && Blank(s.tx.blocks, b);
    assert NodeOk(Do(s.tx, a).blocks, chain'[i], i);
  }

  lemma TxChainSame(s: CState, chain: seq<nat>, a: TxLog.Action, chain': seq<nat>)
    requires CInv(s, chain) && Enabled(s.tx, a) && Inv(Do(s.tx, a), chain')
    requires !a.Link? || s.tx.blocks[s.tx.threads[a.t].cursor.block].next != 0
    ensures chain' == chain
  {
    if a.Take? { TakeStep(s.tx, chain, a.t, a.b); }
    if a.Append? { AppendStep(s.tx, chain, a.t, a.e); }
    SameChain(Do(s.tx, a).blocks, chain, chain');
  }

  lemma TxStep(s: CState, chain: seq<nat>, a: TxLog.Action) returns (chain': seq<nat>)
    requires CInv(s, chain) && Enabled(s.tx, a)
    ensures CInv(DoTx(s, a), chain')
  {
    var s' := DoTx(s, a);
    chain' := StepInv(s.tx, chain, a);
    TxDiskStep(s, chain, a, chain');
    TxHeld(s, chain, a);
    TxFlushed(s, chain, a, chain', s.tail);
    forall t | 0 <= t < |s.syncs| ensures SyncOk(s', chain', s'.syncs[t]) {
      assert SyncOk(s, chain, s.syncs[t]);
      TxSync(s, chain, a, chain', s.syncs[t]);
    }
  }

  lemma TxHeld(s: CState, chain: seq<nat>, a: TxLog.Action)
    requires CInv(s, chain) && Enabled(s.tx, a)
    ensures var s' := DoTx(s, a);
            forall t | 0 <= t < |s'.tx.threads| && Held(s'.tx.threads[t]) != 0 :: Blank(s'.disk, Held(s'.tx.threads[t]))
  {
    var s' := DoTx(s, a);
    if a.Take? { TakeStep(s.tx, chain, a.t, a.b); }
    forall t | 0 <= t < |s'.tx.threads| && Held(s'.tx.threads[t]) != 0 ensures Blank(s'.disk, Held(s'.tx.threads[t])) {
      if t == a.t && a.Take? {
        assert ThreadOk(s'.tx, chain, s'.tx.threads[t]);
      } else {
        assert Held(s'.tx.threads[t]) == Held(s.tx.threads[t]);
        if a.Take? { assert ThreadOk(s'.tx, chain, s'.tx.threads[t]) && ThreadOk(s'.tx, chain, s'.tx.threads[a.t]); }
      }
    }
  }

  lemma TxFlushed(s: CState, chain: seq<nat>, a: TxLog.Action, chain': seq<nat>, c: Cursor)
    requires CInv(s, chain) && Enabled(s.tx, a) && Inv(Do(s.tx, a), chain') && chain <= chain'
    requires FlushedTo(s.disk, s.tx.blocks, chain, c)
    ensures FlushedTo(DoTx(s, a).disk, Do(s.tx, a).blocks, chain', c)
  {
    FlushedKept(s.disk, s.tx, chain, a, chain', c);
    if a.Take? {
      TakeKeeps(s.tx, chain, a.t, a.b);
      TxChainSame(s, chain, a, chain');
      forall i | 0 <= i < |chain| ensures Closer(s.disk, DoTx(s, a).disk, Do(s.tx, a).blocks, chain[i]) {
        assert DiskBlockOk(s.disk, s.tx.blocks, chain[i]);
      }
      FlushedElsewhere(s.disk, DoTx(s, a).disk, Do(s.tx, a).blocks, chain, c);
    }
  }

  lemma TxSync(s: CState, chain: seq<nat>, a: TxLog.Action, chain': seq<nat>, y: Sync)
    requires CInv(s, chain) && Enabled(s.tx, a) && Inv(Do(s.tx, a), chain') && chain <= chain' && SyncOk(s, chain, y)
    ensures SyncOk(DoTx(s, a), chain', y)
  {
    match y
    case NoSync =>
    case Flushing(at, end) =>
      TxFlushed(s, chain, a, chain', at);
      CursorKept(s.tx, chain, a, chain', end);
      StepFrame(s.tx, chain, a, s.tx.blocks[at.block].txSeq);
      StepFrame(s.tx, chain, a, s.tx.blocks[end.block].txSeq);
    case Flushed(end) => TxFlushed(s, chain, a, chain', end);
    case Synced(end) => TxFlushed(s, chain, a, chain', end);
  }

  /* Steps of a flush. */

  /** A flush step: the disk gets closer to what was stored, in one block of the
      chain. */
  lemma DiskStep(s: CState, s': CState, chain: seq<nat>, t: nat, b: nat)
    requires CInv(s, chain) && t < |s.syncs| && |s'.syncs| == |s.syncs|
    requires s' == s.(disk := s'.disk, syncs := s.syncs[t := s'.syncs[t]])
    requires b in chain && b in s.disk && b in s'.disk && s'.disk == s.disk[b := s'.disk[b]]
    requires Closer(s.disk, s'.disk, s.tx.blocks, b)
    requires SyncOk(s', chain, s'.syncs[t])
    ensures CInv(s', chain)
  {
    forall i | 0 <= i < |chain| ensures DiskBlockOk(s'.disk, s'.tx.blocks, chain[i])
        && Closer(s.disk, s'.disk, s.tx.blocks, chain[i]) {
      assert DiskBlockOk(s.disk, s.tx.blocks, chain[i]);
    }
    forall u | 0 <= u < |s.tx.threads| && Held(s.tx.threads[u]) != 0 ensures Blank(s'.disk, Held(s.tx.threads[u])) {
      assert ThreadOk(s.tx, chain, s.tx.threads[u]);
    }
    FlushedElsewhere(s.disk, s'.disk, s.tx.blocks, chain, s.tail);
    forall u | 0 <= u < |s.syncs| ensures SyncOk(s', chain, s'.syncs[u]) {
      if u != t {
        assert SyncOk(s, chain, s.syncs[u]);
        match s.syncs[u]
        case NoSync =>
        case Flushing(at, _) => FlushedElsewhere(s.disk, s'.disk, s.tx.blocks, chain, at);
        case Flushed(end) => FlushedElsewhere(s.disk, s'.disk, s.tx.blocks, chain, end);
        case Synced(end) => FlushedElsewhere(s.disk, s'.disk, s.tx.blocks, chain, end);
      }
    }
  }

  lemma FlushSlotStep(s: CState, chain: seq<nat>, t: nat)
    requires CInv(s, chain) && CEnabled(s, FlushSlot(t))
    ensures CInv(CDo(s, FlushSlot(t)), chain)
  {
    var s' := CDo(s, FlushSlot(t));
    var at, end := s.syncs[t].at, s.syncs[t].end;
    assert SyncOk(s, chain, s.syncs[t]);
    CapIsReached(s.tx.blocks, chain, at);
    var i := s.tx.blocks[at.block].txSeq;
    assert NodeOk(s.tx.blocks, chain[i], i) && DiskBlockOk(s.disk, s.tx.blocks, chain[i]);
    forall k | 0 <= k < |chain| ensures Closer(s.disk, s'.disk, s.tx.blocks, chain[k]) {
      assert DiskBlockOk(s.disk, s.tx.blocks, chain[k]);
    }
    FlushedElsewhere(s.disk, s'.disk, s.tx.blocks, chain, at);
    DiskStep(s, s', chain, t, at.block);
  }

  lemma FlushLinkStep(s: CState, chain: seq<nat>, t: nat)
    requires CInv(s, chain) && CEnabled(s, FlushLink(t))
    ensures CInv(CDo(s, FlushLink(t)), chain)
  {
    var s', at := CDo(s, FlushLink(t)), s.syncs[t].at;
    assert SyncOk(s, chain, s.syncs[t]);
    assert chain[s.tx.blocks[at.block].txSeq] == at.block;
    FlushLinkCloser(s, chain, t);
    FlushLinkSync(s, chain, t);
    DiskStep(s, s', chain, t, at.block);
  }

  /** The flush goes on in the next block. */
  lemma FlushLinkSync(s: CState, chain: seq<nat>, t: nat)
    requires CInv(s, chain) && CEnabled(s, FlushLink(t))
    ensures var s' := CDo(s, FlushLink(t)); SyncOk(s', chain, s'.syncs[t])
  {
    var s', at := CDo(s, FlushLink(t)), s.syncs[t].at;
    assert SyncOk(s, chain, s.syncs[t]);
    FlushLinkCloser(s, chain, t);
    FlushedElsewhere(s.disk, s'.disk, s.tx.blocks, chain, at);
    CapIsReached(s.tx.blocks, chain, at);
    var i := s.tx.blocks[at.block].txSeq;
    assert DiskBlockOk(s.disk, s.tx.blocks, chain[i + 1]);
    NextIsFlushed(s'.disk, s.tx.blocks, chain, at, i);
  }

  /** A block whose slots and link are persistent is left behind. */
  lemma NextIsFlushed(disk: map<nat, TxBlock>, blocks: map<nat, TxBlock>, chain: seq<nat>, at: Cursor, i: nat)
    requires IsChain(blocks, chain) && FlushedTo(disk, blocks, chain, at) && at.local >= Cap(at.block)
    requires i == blocks[at.block].txSeq && i + 1 < |chain|
    requires at.block in disk && disk[at.block].next == blocks[at.block].next
    requires SlotsSafe(disk, blocks, chain[i + 1], 0)
    ensures FlushedTo(disk, blocks, chain, Cursor(chain[i + 1], 0)) && blocks[at.block].next == chain[i + 1]
  {
    assert LinkOk(blocks, chain[i], chain[i + 1]);
    assert NodeOk(blocks, chain[i], i) && NodeOk(blocks, chain[i + 1], i + 1);
  }

  lemma FlushLinkCloser(s: CState, chain: seq<nat>, t: nat)
    requires CInv(s, chain) && CEnabled(s, FlushLink(t))
    ensures forall k | 0 <= k < |chain| :: Closer(s.disk, CDo(s, FlushLink(t)).disk, s.tx.blocks, chain[k])
  {
    var s' := CDo(s, FlushLink(t));
    forall k | 0 <= k < |chain| ensures Closer(s.disk, s'.disk, s.tx.blocks, chain[k]) {
      assert DiskBlockOk(s.disk, s.tx.blocks, chain[k]);
    }
  }

  /** Where a flush starts: at the tail, unless the target is already covered. */
  lemma BeginSyncStep(s: CState, chain: seq<nat>, t: nat, u: nat)
    requires CInv(s, chain) && CEnabled(s, BeginSync(t, u))
    ensures CInv(CDo(s, BeginSync(t, u)), chain)
  {
    var s', end := CDo(s, BeginSync(t, u)), s.tx.threads[u].cursor;
    assert ThreadOk(s.tx, chain, s.tx.threads[u]);
    assert NodeOk(s.tx.blocks, chain[0], 0);
    if !Before(s.tx.blocks, s.tail, end) {
      Covered(s, chain, end);
    }
    forall w | 0 <= w < |s.syncs| ensures SyncOk(s', chain, s'.syncs[w]) { assert SyncOk(s, chain, s.syncs[w]); }
  }

  lemma Covered(s: CState, chain: seq<nat>, end: Cursor)
    requires CInv(s, chain) && CursorOk(s.tx.blocks, chain, end) && !Before(s.tx.blocks, s.tail, end)
    ensures FlushedTo(s.disk, s.tx.blocks, chain, end)
  {
    var i, k := s.tx.blocks[end.block].txSeq, s.tx.blocks[s.tail.block].txSeq;
    assert NodeOk(s.tx.blocks, chain[0], 0) && NodeOk(s.tx.blocks, chain[i], i);
    if end.block != s.tail.block {
      assert i < k;
      assert BlockSafe(s.disk, s.tx.blocks, chain[i]);
    }
  }

  /** The recorded tail stays a fully flushed position, also when it is stepped
      back from an overflowed cursor. */
  lemma StoreTailStep(s: CState, chain: seq<nat>, t: nat)
    requires CInv(s, chain) && CEnabled(s, StoreTail(t))
    ensures CInv(CDo(s, StoreTail(t)), chain)
  {
    var s' := CDo(s, StoreTail(t));
    assert SyncOk(s, chain, s.syncs[t]);
    CapIsReached(s.tx.blocks, chain, s.syncs[t].end);
    forall u | 0 <= u < |s.syncs| ensures SyncOk(s', chain, s'.syncs[u]) { assert SyncOk(s, chain, s.syncs[u]); }
  }

  lemma SyncMove(s: CState, s': CState, chain: seq<nat>, t: nat)
    requires CInv(s, chain) && t < |s.syncs| && |s'.syncs| == |s.syncs| && s' == s.(syncs := s.syncs[t := s'.syncs[t]])
    requires SyncOk(s', chain, s'.syncs[t])
    ensures CInv(s', chain)
  {
    forall u | 0 <= u < |s.syncs| ensures SyncOk(s', chain, s'.syncs[u]) { assert SyncOk(s, chain, s.syncs[u]); }
  }

  /* Whole runs. */

  lemma CStepInv(s: CState, chain: seq<nat>, a: CAction) returns (chain': seq<nat>)
    requires CInv(s, chain) && CEnabled(s, a)
    ensures CInv(CDo(s, a), chain')
  {
    chain' := chain;
    match a
    case Tx(x) => chain' := TxStep(s, chain, x);
    case BeginSync(t, u) => BeginSyncStep(s, chain, t, u);
    case FlushSlot(t) => FlushSlotStep(s, chain, t);
    case FlushLink(t) => FlushLinkStep(s, chain, t);
    case Fence(t) =>
      assert SyncOk(s, chain, s.syncs[t]);
      SyncMove(s, CDo(s, a), chain, t);
    case StoreTail(t) => StoreTailStep(s, chain, t);
    case Return(t) => SyncMove(s, CDo(s, a), chain, t);
  }

  lemma CInitInv(s: CState)
    requires CInit(s)
    ensures CInv(s, [0])
  {
    InitInv(s.tx);
    assert NodeOk(s.tx.blocks, 0, 0);
  }

  lemma {:induction false} CRunInv(run: seq<CState>, i: nat) returns (chain: seq<nat>)
    requires CRun(run) && i < |run|
    ensures CInv(run[i], chain)
  {
    if i == 0 {
      CInitInv(run[0]);
      chain := [0];
    } else {
      var chain0 := CRunInv(run, i - 1);
      assert CNext(run[i - 1], run[i]);
      var a :| CEnabled(run[i - 1], a) && run[i] == CDo(run[i - 1], a);
      chain := CStepInv(run[i - 1], chain0, a);
    }
  }

  /* Recovery. */

  /** A torn block gives a prefix of its entries, and all of the flushed ones. */
  lemma TornEntries(disk: map<nat, TxBlock>, blocks: map<nat, TxBlock>, b: nat, img: TxBlock, n: nat)
    requires DiskBlockOk(disk, blocks, b) && Torn(img, disk[b], blocks[b])
    requires n <= |Filled(blocks[b].slots)| && SlotsSafe(disk, blocks, b, n)
    ensures n <= |Filled(img.slots)| && Filled(img.slots) <= Filled(blocks[b].slots)
  {
    var es, fs := Filled(img.slots), Filled(blocks[b].slots);
    forall j | 0 <= j < |es| ensures blocks[b].slots[j] == Some(es[j]) { assert img.slots[j] == Some(es[j]); }
    assert |es| <= |fs|;
    assert forall j | 0 <= j < |es| :: es[j] == fs[j];
    assert forall j | 0 <= j < n :: img.slots[j].Some?;
    assert n <= |es|;
  }

  ghost predicate DiskOk(s: CState, chain: seq<nat>)
  {
    IsChain(s.tx.blocks, chain) && forall i | 0 <= i < |chain| :: DiskBlockOk(s.disk, s.tx.blocks, chain[i])
  }

  /** The blocks of the chain from the `i`-th on are torn copies. */
  ghost predicate TornFrom(s: CState, chain: seq<nat>, img: map<nat, TxBlock>, i: nat)
  {
    forall k | i <= k < |chain| ::
      && chain[k] in img && chain[k] in s.disk && chain[k] in s.tx.blocks
      && Torn(img[chain[k]], s.disk[chain[k]], s.tx.blocks[chain[k]])
  }

  lemma {:induction false} LogPrefix(blocks: map<nat, TxBlock>, chain: seq<nat>, i: nat)
    requires i <= |chain|
    ensures Log(blocks, chain[..i]) <= Log(blocks, chain)
    decreases |chain|
  {
    if i < |chain| {
      LogPrefix(blocks, chain[..|chain| - 1], i);
      assert chain[..|chain| - 1][..i] == chain[..i];
    } else {
      assert chain[..i] == chain;
    }
  }

  /** From the `i`-th block on, recovery reads a prefix of what was logged. */
  lemma {:induction false} RecoversPrefix(s: CState, chain: seq<nat>, img: map<nat, TxBlock>, i: nat)
    requires DiskOk(s, chain) && i < |chain| && TornFrom(s, chain, img, i)
    ensures Log(s.tx.blocks, chain[..i]) + Recovered(img, chain[i]) <= Log(s.tx.blocks, chain)
    decreases |chain| - i
  {
    var blocks, b := s.tx.blocks, chain[i];
    assert NodeOk(blocks, b, i) && DiskBlockOk(s.disk, blocks, b);
    TornEntries(s.disk, blocks, b, img[b], 0);
    var es, head := Filled(img[b].slots), Log(blocks, chain[..i]);
    assert chain[..i + 1][..i] == chain[..i];
    assert Log(blocks, chain[..i + 1]) == head + Filled(blocks[b].slots);
    LogPrefix(blocks, chain, i + 1);
    if |es| == |img[b].slots| && img[b].next != 0 {
      NextTorn(s, chain, img, i);
      RecoversPrefix(s, chain, img - {b}, i + 1);
      Regroup(head, es, Filled(blocks[b].slots), Recovered(img - {b}, chain[i + 1]));
    } else {
      PrefixTrans(head, es, Filled(blocks[b].slots), Log(blocks, chain));
    }
  }

  lemma Regroup(a: seq<TxEntry>, b: seq<TxEntry>, b': seq<TxEntry>, c: seq<TxEntry>)
    requires b <= b' && |b| == |b'|
    ensures a + (b + c) == (a + b') + c
  {
  }

  lemma PrefixTrans(a: seq<TxEntry>, b: seq<TxEntry>, b': seq<TxEntry>, log: seq<TxEntry>)
    requires b <= b' && a + b' <= log
    ensures a + b <= log
  {
    assert a + b == (a + b')[..|a + b|];
  }

  /** A surviving link out of a full block leads to the next block of the chain. */
  lemma NextTorn(s: CState, chain: seq<nat>, img: map<nat, TxBlock>, i: nat)
    requires DiskOk(s, chain) && i < |chain| && TornFrom(s, chain, img, i) && img[chain[i]].next != 0
    ensures i + 1 < |chain| && img[chain[i]].next == chain[i + 1] && TornFrom(s, chain, img - {chain[i]}, i + 1)
  {
    assert NodeOk(s.tx.blocks, chain[i], i) && DiskBlockOk(s.disk, s.tx.blocks, chain[i]);
    if i + 1 < |chain| { assert LinkOk(s.tx.blocks, chain[i], chain[i + 1]); }
    forall k | i + 1 <= k < |chain| ensures chain[k] != chain[i] { assert NodeOk(s.tx.blocks, chain[k], k); }
  }

  /** ... and reaches every flushed position. */
  lemma {:induction false} RecoversFlushed(s: CState, chain: seq<nat>, img: map<nat, TxBlock>, i: nat, c: Cursor)
    requires DiskOk(s, chain) && i < |chain| && TornFrom(s, chain, img, i)
    requires FlushedTo(s.disk, s.tx.blocks, chain, c) && i <= s.tx.blocks[c.block].txSeq
    ensures Start(s.tx.blocks, chain, i) + |Recovered(img, chain[i])| >= Pos(s.tx.blocks, chain, c)
    decreases |chain| - i
  {
    var blocks, b := s.tx.blocks, chain[i];
    assert NodeOk(blocks, b, i) && DiskBlockOk(s.disk, blocks, b);
    if i == blocks[c.block].txSeq {
      TornEntries(s.disk, blocks, b, img[b], c.local);
    } else {
      assert BlockSafe(s.disk, blocks, b) && LinkOk(blocks, chain[i], chain[i + 1]);
      TornEntries(s.disk, blocks, b, img[b], Cap(b));
      NextTorn(s, chain, img, i);
      RecoversFlushed(s, chain, img - {b}, i + 1, c);
      StartNext(blocks, chain, i);
    }
  }

  /* What was flushed stays flushed. */

  ghost predicate Safe(s: CState, chain: seq<nat>, c: Cursor)
  {
    CInv(s, chain) && FlushedTo(s.disk, s.tx.blocks, chain, c)
  }

  /** The state with one more `fsync`, which has returned. */
  function WithSync(s: CState, c: Cursor): CState { s.(syncs := s.syncs + [Synced(c)]) }

  lemma AddSync(s: CState, chain: seq<nat>, c: Cursor)
    requires CInv(s, chain) && FlushedTo(s.disk, s.tx.blocks, chain, c)
    ensures CInv(WithSync(s, c), chain)
  {
    var more := WithSync(s, c);
    forall t | 0 <= t < |more.syncs| ensures SyncOk(more, chain, more.syncs[t]) {
      if t < |s.syncs| { assert SyncOk(s, chain, s.syncs[t]); }
    }
  }

  lemma DropSync(s: CState, chain: seq<nat>, c: Cursor)
    requires CInv(WithSync(s, c), chain)
    ensures CInv(s, chain) && FlushedTo(s.disk, s.tx.blocks, chain, c)
  {
    var more := WithSync(s, c);
    assert SyncOk(more, chain, more.syncs[|s.syncs|]);
    forall t | 0 <= t < |s.syncs| ensures SyncOk(s, chain, s.syncs[t]) { assert SyncOk(more, chain, more.syncs[t]); }
  }

  /** It takes no part in the steps. */
  lemma StepWithSync(s: CState, a: CAction, c: Cursor)
    requires CEnabled(s, a)
    ensures CEnabled(WithSync(s, c), a) && CDo(WithSync(s, c), a) == WithSync(CDo(s, a), c)
  {
  }

  /** So every step keeps a flushed position flushed. */
  lemma StepFlushed(s: CState, s': CState, chain: seq<nat>, c: Cursor) returns (chain': seq<nat>)
    requires CNext(s, s') && Safe(s, chain, c)
    ensures Safe(s', chain', c)
  {
    var a :| CEnabled(s, a) && s' == CDo(s, a);
    AddSync(s, chain, c);
    StepWithSync(s, a, c);
    chain' := CStepInv(WithSync(s, c), chain, a);
    DropSync(s', chain', c);
  }

  lemma NextFlushed(run: seq<CState>, i: nat, chain: seq<nat>, c: Cursor) returns (chain': seq<nat>)
    requires CRun(run) && 0 < i < |run| && Safe(run[i - 1], chain, c)
    ensures Safe(run[i], chain', c)
  {
    var s, s' := run[i - 1], run[i];
    assert CNext(s, s');
    chain' := StepFlushed(s, s', chain, c);
  }

  lemma {:induction false} RunFlushed(run: seq<CState>, j: nat, i: nat, chain0: seq<nat>, c: Cursor)
    returns (chain: seq<nat>)
    requires CRun(run) && j <= i < |run| && Safe(run[j], chain0, c)
    ensures Safe(run[i], chain, c)
  {
    if j == i {
      chain := chain0;
    } else {
      var chain1 := RunFlushed(run, j, i - 1, chain0, c);
      chain := NextFlushed(run, i, chain1, c);
    }
  }

  /** The position of an `fsync` that has returned once. */
  lemma ReturnedIsSafe(run: seq<CState>, j: nat, i: nat, t: nat) returns (chain: seq<nat>)
    requires CRun(run) && j <= i < |run| && t < |run[j].syncs| && run[j].syncs[t].Synced?
    ensures Safe(run[i], chain, run[j].syncs[t].end)
  {
    chain := CRunInv(run, j);
    assert SyncOk(run[j], chain, run[j].syncs[t]);
    chain := RunFlushed(run, j, i, chain, run[j].syncs[t].end);
  }

  /* Main result. */

  /** Recovery from image `img` of the state contains every entry before `c`. */
  ghost predicate Survives(s: CState, chain: seq<nat>, img: map<nat, TxBlock>, c: Cursor)
  {
    CursorOk(s.tx.blocks, chain, c) && Pos(s.tx.blocks, chain, c) <= |Recovered(img, 0)|
  }

  /** In every reachable state and for every crash image: recovery reads a prefix
      of the committed log; the prefix contains every entry before the cursor of
      every `fsync` that has ever returned, and every entry before the recorded
      tail. */
  lemma {:induction false} CrashPrefix(run: seq<CState>, i: nat, img: map<nat, TxBlock>, chain: seq<nat>)
    requires CRun(run) && i < |run| && CrashImage(run[i], img) && IsChain(run[i].tx.blocks, chain)
    ensures Recovered(img, 0) <= Log(run[i].tx.blocks, chain) && Survives(run[i], chain, img, run[i].tail)
    ensures forall j, t | 0 <= j <= i && 0 <= t < |run[j].syncs| && run[j].syncs[t].Synced? ::
              Survives(run[i], chain, img, run[j].syncs[t].end)
  {
    var chain2 := CRunInv(run, i);
    var s := run[i];
    SameChain(s.tx.blocks, chain, chain2);
    assert chain[..0] == [];
    ImageIsTorn(s, chain, img);
    RecoversPrefix(s, chain, img, 0);
    RecoversFlushed(s, chain, img, 0, s.tail);
    forall j, t | 0 <= j <= i && 0 <= t < |run[j].syncs| && run[j].syncs[t].Synced?
      ensures Survives(s, chain, img, run[j].syncs[t].end)
    {
      SyncedSurvives(run, i, img, chain, j, t);
    }
  }

  lemma {:induction false} SyncedSurvives(run: seq<CState>, i: nat, img: map<nat, TxBlock>, chain: seq<nat>, j: nat,
                                          t: nat)
    requires CRun(run) && j <= i < |run| && IsChain(run[i].tx.blocks, chain) && TornFrom(run[i], chain, img, 0)
    requires CInv(run[i], chain) && t < |run[j].syncs| && run[j].syncs[t].Synced?
    ensures Survives(run[i], chain, img, run[j].syncs[t].end)
  {
    var chain3 := ReturnedIsSafe(run, j, i, t);
    SameChain(run[i].tx.blocks, chain, chain3);
    assert chain[..0] == [];
    RecoversFlushed(run[i], chain, img, 0, run[j].syncs[t].end);
  }

  lemma ImageIsTorn(s: CState, chain: seq<nat>, img: map<nat, TxBlock>)
    requires CInv(s, chain) && CrashImage(s, img)
    ensures TornFrom(s, chain, img, 0)
  {
    forall k | 0 <= k < |chain|
      ensures chain[k] in img && chain[k] in s.disk && chain[k] in s.tx.blocks
          && Torn(img[chain[k]], s.disk[chain[k]], s.tx.blocks[chain[k]])
    {
      assert DiskBlockOk(s.disk, s.tx.blocks, chain[k]);
    }
  }
}
