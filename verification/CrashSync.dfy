/** What `fsync` promises its caller: it ends, and then everything that had been
    committed before the cursor it was called with survives every later crash. */
module CrashSync {
  import opened Layout
  import opened Entry
  import opened TxLog
  import opened TxLogSafety
  import opened Crash
  import opened CrashSafety
  import CrashLines

  ghost predicate CStepAt(run: seq<CState>, acts: seq<CAction>, k: nat)
  {
    k < |acts| < |run| && CEnabled(run[k], acts[k]) && run[k + 1] == CDo(run[k], acts[k])
  }

  /** A run with the action of each step. */
  ghost predicate CTrace(run: seq<CState>, acts: seq<CAction>)
  {
    CRun(run) && |run| == |acts| + 1 && forall k | 0 <= k < |acts| :: CStepAt(run, acts, k)
  }

  /** Step `j` calls `fsync` for slot `t` with the cursor of thread `u`, and no other
      call for that slot comes before step `i`. */
  ghost predicate Called(acts: seq<CAction>, t: nat, u: nat, j: nat, i: nat)
  {
    j < i <= |acts| && acts[j] == BeginSync(t, u) && forall k | j < k < i :: !(acts[k].BeginSync? && acts[k].t == t)
  }

  predicate Running(s: CState, t: nat) { t < |s.syncs| && !s.syncs[t].NoSync? }

  /* Where it aims. */

  predicate Aims(s: CState, t: nat, c: Cursor) { t < |s.syncs| && (!s.syncs[t].NoSync? ==> s.syncs[t].end == c) }

  lemma AimsStep(s: CState, a: CAction, t: nat, c: Cursor)
    requires CEnabled(s, a) && Aims(s, t, c) && !(a.BeginSync? && a.t == t)
    ensures Aims(CDo(s, a), t, c)
  {
  }

  lemma AimsFirst(s: CState, t: nat, u: nat)
    requires CEnabled(s, BeginSync(t, u))
    ensures u < |s.tx.threads| && Aims(CDo(s, BeginSync(t, u)), t, s.tx.threads[u].cursor)
    ensures !CDo(s, BeginSync(t, u)).syncs[t].NoSync?
  {
  }

  lemma {:induction false} AimsAt(run: seq<CState>, acts: seq<CAction>, t: nat, u: nat, j: nat, i: nat)
    requires CTrace(run, acts) && Called(acts, t, u, j, i)
    ensures u < |run[j].tx.threads| && Aims(run[i], t, run[j].tx.threads[u].cursor)
  {
    assert CStepAt(run, acts, i - 1);
    if i - 1 == j {
      AimsFirst(run[j], t, u);
    } else {
      AimsAt(run, acts, t, u, j, i - 1);
      AimsStep(run[i - 1], acts[i - 1], t, run[j].tx.threads[u].cursor);
    }
  }

  /* What was committed stays where it was. */

  lemma PositionStays(s: CState, a: CAction, chain: seq<nat>, chain': seq<nat>, c: Cursor)
    requires CInv(s, chain) && CEnabled(s, a) && CInv(CDo(s, a), chain') && CursorOk(s.tx.blocks, chain, c)
    ensures CursorOk(CDo(s, a).tx.blocks, chain', c)
    ensures Pos(CDo(s, a).tx.blocks, chain', c) == Pos(s.tx.blocks, chain, c)
    ensures CDo(s, a).tx.blocks[c.block].txSeq == s.tx.blocks[c.block].txSeq
    ensures Log(s.tx.blocks, chain) <= Log(CDo(s, a).tx.blocks, chain')
  {
    if a.Tx? {
      var chain2 := StepInv(s.tx, chain, a.a);
      SameChain(Do(s.tx, a.a).blocks, chain2, chain');
      CursorKept(s.tx, chain, a.a, chain', c);
      CrashLines.StartKept(s.tx, chain, a.a, chain', c);
    } else {
      SameChain(s.tx.blocks, chain, chain');
    }
  }

  lemma ChainAt(run: seq<CState>, i: nat, chain: seq<nat>)
    requires CRun(run) && i < |run| && IsChain(run[i].tx.blocks, chain)
    ensures CInv(run[i], chain)
  {
    var same := CRunInv(run, i);
    SameChain(run[i].tx.blocks, chain, same);
  }

  /** From `s` to a later state, the cursor keeps its position, and the log grows at its
      end. */
  ghost predicate Grown(s: CState, chain: seq<nat>, s': CState, chain': seq<nat>, c: Cursor)
  {
    && CursorOk(s.tx.blocks, chain, c) && CursorOk(s'.tx.blocks, chain', c)
    && Pos(s'.tx.blocks, chain', c) == Pos(s.tx.blocks, chain, c)
    && Log(s.tx.blocks, chain) <= Log(s'.tx.blocks, chain')
  }

  lemma GrownStep(s: CState, chain: seq<nat>, s': CState, c: Cursor) returns (chain': seq<nat>)
    requires CInv(s, chain) && CNext(s, s') && CursorOk(s.tx.blocks, chain, c)
    ensures CInv(s', chain') && Grown(s, chain, s', chain', c)
  {
    var a :| CEnabled(s, a) && s' == CDo(s, a);
    chain' := CStepInv(s, chain, a);
    PositionStays(s, a, chain, chain', c);
  }

  lemma GrownNext(run: seq<CState>, i: nat, chain: seq<nat>, c: Cursor) returns (chain': seq<nat>)
    requires CRun(run) && i + 1 < |run| && CInv(run[i], chain) && CursorOk(run[i].tx.blocks, chain, c)
    ensures CInv(run[i + 1], chain') && Grown(run[i], chain, run[i + 1], chain', c)
  {
    assert CNext(run[i], run[i + 1]);
    chain' := GrownStep(run[i], chain, run[i + 1], c);
  }

  lemma GrownTwice(s: CState, chain: seq<nat>, s1: CState, chain1: seq<nat>, s2: CState, chain2: seq<nat>, c: Cursor)
    requires Grown(s, chain, s1, chain1, c) && Grown(s1, chain1, s2, chain2, c)
    ensures Grown(s, chain, s2, chain2, c)
  {
  }

  lemma {:induction false} GrownRun(run: seq<CState>, j: nat, i: nat, chain: seq<nat>, c: Cursor)
    returns (chain': seq<nat>)
    requires CRun(run) && j <= i < |run| && CInv(run[j], chain) && CursorOk(run[j].tx.blocks, chain, c)
    ensures CInv(run[i], chain') && Grown(run[j], chain, run[i], chain', c)
    decreases i - j
  {
    if j == i {
      chain' := chain;
    } else {
      var n := i - 1;
      var chain1 := GrownRun(run, j, n, chain, c);
      chain' := GrownNext(run, n, chain1, c);
      GrownTwice(run[j], chain, run[n], chain1, run[i], chain', c);
    }
  }

  /** What is appended at the end of the log is in it from then on. */
  lemma AppendIsLogged(run: seq<CState>, acts: seq<CAction>, k: nat, t: nat, e: TxEntry, chain: seq<nat>)
    requires CTrace(run, acts) && k < |acts| && acts[k] == Tx(Append(t, e)) && IsChain(run[k].tx.blocks, chain)
    ensures t < |run[k].tx.threads| && CursorOk(run[k].tx.blocks, chain, run[k].tx.threads[t].cursor)
    ensures IsChain(run[k + 1].tx.blocks, chain)
    ensures var log, log' := Log(run[k].tx.blocks, chain), Log(run[k + 1].tx.blocks, chain);
            log' == if Pos(run[k].tx.blocks, chain, run[k].tx.threads[t].cursor) == |log| then log + [e] else log
  {
    assert CStepAt(run, acts, k);
    ChainAt(run, k, chain);
    AppendStep(run[k].tx, chain, t, e);
  }

  /* Main results. */

  /** Once the call of step `j` is done, in state `k`, every crash image of every later
      state `i` has the entries before the cursor that it was called with. */
  lemma FsyncSurvives(run: seq<CState>, acts: seq<CAction>, t: nat, u: nat, j: nat, k: nat, i: nat,
                      img: map<nat, TxBlock>, chain: seq<nat>)
    requires CTrace(run, acts) && Called(acts, t, u, j, k) && t < |run[k].syncs| && run[k].syncs[t].Synced?
    requires k <= i < |run| && CrashImage(run[i], img) && IsChain(run[i].tx.blocks, chain)
    ensures u < |run[j].tx.threads| && Survives(run[i], chain, img, run[j].tx.threads[u].cursor)
  {
    AimsAt(run, acts, t, u, j, k);
    CrashPrefix(run, i, img, chain);
  }

  /** Recovery from such an image reads, in order, all that had been committed in any
      state `n` up to the call, provided that the cursor of the call was not before it. */
  lemma FsyncIsDurable(run: seq<CState>, acts: seq<CAction>, t: nat, u: nat, j: nat, k: nat, i: nat,
                       img: map<nat, TxBlock>, n: nat, before: seq<nat>, chain: seq<nat>)
    requires CTrace(run, acts) && Called(acts, t, u, j, k) && t < |run[k].syncs| && run[k].syncs[t].Synced?
    requires k <= i < |run| && CrashImage(run[i], img) && n <= j
    requires IsChain(run[n].tx.blocks, before) && IsChain(run[j].tx.blocks, chain) && u < |run[j].tx.threads|
    requires CursorOk(run[j].tx.blocks, chain, run[j].tx.threads[u].cursor)
    requires |Log(run[n].tx.blocks, before)| <= Pos(run[j].tx.blocks, chain, run[j].tx.threads[u].cursor)
    ensures Log(run[n].tx.blocks, before) <= Recovered(img, 0)
  {
    var c := run[j].tx.threads[u].cursor;
    ChainAt(run, n, before);
    ChainAt(run, j, chain);
    StartOk(run[n], before);
    var last := GrownRun(run, j, i, chain, c);
    var same := GrownRun(run, n, i, before, Cursor(0, 0));
    SameChain(run[i].tx.blocks, last, same);
    FsyncSurvives(run, acts, t, u, j, k, i, img, last);
    CrashPrefix(run, i, img, last);
  }

  lemma StartOk(s: CState, chain: seq<nat>)
    requires IsChain(s.tx.blocks, chain)
    ensures CursorOk(s.tx.blocks, chain, Cursor(0, 0))
  {
    assert NodeOk(s.tx.blocks, chain[0], 0);
  }

  /** The tail that the call records is its cursor, or the slot before it if that is
      behind the last slot of its block. */
  lemma RecordsTail(run: seq<CState>, acts: seq<CAction>, t: nat, u: nat, j: nat, k: nat, chain: seq<nat>)
    requires CTrace(run, acts) && Called(acts, t, u, j, k) && k < |acts| && acts[k] == StoreTail(t)
    requires IsChain(run[k + 1].tx.blocks, chain)
    ensures u < |run[j].tx.threads|
    ensures var s, c := run[k + 1], run[j].tx.threads[u].cursor;
            && CursorOk(s.tx.blocks, chain, c) && CursorOk(s.tx.blocks, chain, s.tail)
            && Pos(s.tx.blocks, chain, s.tail) == Pos(s.tx.blocks, chain, c) - if c.local == Cap(c.block) then 1 else 0
  {
    assert CStepAt(run, acts, k);
    AimsAt(run, acts, t, u, j, k);
    var c := run[j].tx.threads[u].cursor;
    ChainAt(run, k + 1, chain);
    assert run[k + 1].syncs[t] == Synced(c) && SyncOk(run[k + 1], chain, run[k + 1].syncs[t]);
    CapIsReached(run[k + 1].tx.blocks, chain, c);
  }

  /** The call has recorded a tail at some step `k` since step `j`, if it is done. */
  ghost predicate Recorded(s: CState, acts: seq<CAction>, t: nat, j: nat, i: nat, k: int)
  {
    t < |s.syncs| && i <= |acts| && if s.syncs[t].Synced? then j < k < i && acts[k] == StoreTail(t) else k == -1
  }

  lemma RecordedStep(s: CState, a: CAction, acts: seq<CAction>, t: nat, j: nat, i: nat, k: int) returns (k': int)
    requires CEnabled(s, a) && i < |acts| && acts[i] == a && j < i && Running(s, t) && Recorded(s, acts, t, j, i, k)
    requires !(a.BeginSync? && a.t == t)
    ensures Recorded(CDo(s, a), acts, t, j, i + 1, k')
    ensures !Running(CDo(s, a), t) ==> s.syncs[t].Synced?
  {
    k' := if a == StoreTail(t) then i else if a == Return(t) then -1 else k;
  }

  lemma {:induction false} RecordedSoFar(run: seq<CState>, acts: seq<CAction>, t: nat, u: nat, j: nat, i: nat)
    returns (k: int)
    requires CTrace(run, acts) && j < i <= |acts| && acts[j] == BeginSync(t, u)
    requires forall n | j < n <= i :: Running(run[n], t)
    ensures Recorded(run[i], acts, t, j, i, k)
  {
    var n := i - 1;
    assert CStepAt(run, acts, n);
    if n == j {
      k := -1;
    } else {
      k := RecordedSoFar(run, acts, t, u, j, n);
      assert Running(run[n], t);
      k := RecordedStep(run[n], acts[n], acts, t, j, n, k);
    }
  }

  /** A call that has ended, with step `i`, was done, and has recorded its tail. */
  lemma FsyncCompletes(run: seq<CState>, acts: seq<CAction>, t: nat, u: nat, j: nat, i: nat) returns (k: nat)
    requires CTrace(run, acts) && j < i < |acts| && acts[j] == BeginSync(t, u)
    requires (forall n | j < n <= i :: Running(run[n], t)) && !Running(run[i + 1], t)
    ensures Called(acts, t, u, j, i) && Running(run[i], t) && run[i].syncs[t].Synced?
    ensures j < k < i && acts[k] == StoreTail(t)
  {
    var n := RecordedSoFar(run, acts, t, u, j, i);
    assert Running(run[i], t) && CStepAt(run, acts, i);
    var n' := RecordedStep(run[i], acts[i], acts, t, j, i, n);
    forall m | j < m < i ensures !(acts[m].BeginSync? && acts[m].t == t) {
      assert Running(run[m], t) && CStepAt(run, acts, m);
    }
    k := n;
  }

  /* It ends. */

  predicate FlushesFor(a: CAction, t: nat) { !a.Tx? && a.t == t }

  lemma UpToPos(blocks: map<nat, TxBlock>, chain: seq<nat>, c: Cursor, d: Cursor)
    requires IsChain(blocks, chain) && CursorOk(blocks, chain, c) && CursorOk(blocks, chain, d) && UpTo(blocks, c, d)
    ensures Pos(blocks, chain, c) <= Pos(blocks, chain, d) && blocks[c.block].txSeq <= blocks[d.block].txSeq
  {
    var i, k := blocks[c.block].txSeq, blocks[d.block].txSeq;
    if i < k {
      CapIsReached(blocks, chain, c);
      PastBlock(blocks, chain, i, k);
    }
  }

  /** The entries and links from `c` to `d`. */
  ghost function Distance(blocks: map<nat, TxBlock>, chain: seq<nat>, c: Cursor, d: Cursor): nat
  {
    if CursorOk(blocks, chain, c) && CursorOk(blocks, chain, d)
        && Pos(blocks, chain, c) <= Pos(blocks, chain, d) && blocks[c.block].txSeq <= blocks[d.block].txSeq
    then Pos(blocks, chain, d) - Pos(blocks, chain, c) + blocks[d.block].txSeq - blocks[c.block].txSeq
    else 0
  }

  /** The steps that are left: one for every entry and every link on the way. */
  ghost function SyncRank(blocks: map<nat, TxBlock>, chain: seq<nat>, y: Sync): nat
  {
    match y
    case NoSync => 0
    case Synced(_) => 1
    case Flushed(_) => 2
    case Flushing(at, end) => 3 + Distance(blocks, chain, at, end)
  }

  /** Until it has returned, the flush has a step to take. */
  lemma SyncNeverStuck(s: CState, chain: seq<nat>, t: nat) returns (a: CAction)
    requires CInv(s, chain) && t < |s.syncs| && !s.syncs[t].NoSync?
    ensures FlushesFor(a, t) && CEnabled(s, a)
  {
    assert SyncOk(s, chain, s.syncs[t]);
    match s.syncs[t]
    case Synced(_) => a := Return(t);
    case Flushed(_) => a := StoreTail(t);
    case Flushing(at, end) =>
      CapIsReached(s.tx.blocks, chain, at);
      CapIsReached(s.tx.blocks, chain, end);
      var i := s.tx.blocks[at.block].txSeq;
      assert NodeOk(s.tx.blocks, chain[i], i) && DiskBlockOk(s.disk, s.tx.blocks, chain[i]);
      a := if SlotLeft(at, end) then FlushSlot(t) else if at.block != end.block then FlushLink(t) else Fence(t);
  }

  lemma DistanceIs(blocks: map<nat, TxBlock>, chain: seq<nat>, c: Cursor, d: Cursor)
    requires IsChain(blocks, chain) && CursorOk(blocks, chain, c) && CursorOk(blocks, chain, d) && UpTo(blocks, c, d)
    ensures Distance(blocks, chain, c, d)
         == Pos(blocks, chain, d) - Pos(blocks, chain, c) + blocks[d.block].txSeq - blocks[c.block].txSeq
  {
    UpToPos(blocks, chain, c, d);
  }

  /** Each of its steps lowers the rank. */
  lemma SyncStepLowers(s: CState, chain: seq<nat>, a: CAction, t: nat)
    requires CInv(s, chain) && CEnabled(s, a) && FlushesFor(a, t) && t < |s.syncs| && !s.syncs[t].NoSync?
    ensures SyncRank(s.tx.blocks, chain, CDo(s, a).syncs[t]) < SyncRank(s.tx.blocks, chain, s.syncs[t])
  {
    match a
    case FlushSlot(_) => FlushSlotLowers(s, chain, t);
    case FlushLink(_) => FlushLinkLowers(s, chain, t);
    case _ =>
  }

  lemma FlushSlotLowers(s: CState, chain: seq<nat>, t: nat)
    requires CInv(s, chain) && CEnabled(s, FlushSlot(t))
    ensures SyncRank(s.tx.blocks, chain, CDo(s, FlushSlot(t)).syncs[t]) < SyncRank(s.tx.blocks, chain, s.syncs[t])
  {
    var at, end := s.syncs[t].at, s.syncs[t].end;
    FlushSlotStep(s, chain, t);
    assert SyncOk(s, chain, s.syncs[t]) && SyncOk(CDo(s, FlushSlot(t)), chain, CDo(s, FlushSlot(t)).syncs[t]);
    FlushCloser(s.tx.blocks, chain, at, Cursor(at.block, at.local + 1), end);
  }

  lemma FlushLinkLowers(s: CState, chain: seq<nat>, t: nat)
    requires CInv(s, chain) && CEnabled(s, FlushLink(t))
    ensures SyncRank(s.tx.blocks, chain, CDo(s, FlushLink(t)).syncs[t]) < SyncRank(s.tx.blocks, chain, s.syncs[t])
  {
    var at, end := s.syncs[t].at, s.syncs[t].end;
    FlushLinkStep(s, chain, t);
    assert SyncOk(s, chain, s.syncs[t]) && SyncOk(CDo(s, FlushLink(t)), chain, CDo(s, FlushLink(t)).syncs[t]);
    CapIsReached(s.tx.blocks, chain, at);
    FlushCloser(s.tx.blocks, chain, at, Cursor(s.tx.blocks[at.block].next, 0), end);
  }

  lemma FlushCloser(blocks: map<nat, TxBlock>, chain: seq<nat>, c: Cursor, c': Cursor, d: Cursor)
    requires IsChain(blocks, chain) && CursorOk(blocks, chain, c) && CursorOk(blocks, chain, d) && UpTo(blocks, c, d)
    requires CursorOk(blocks, chain, c') && UpTo(blocks, c', d)
    requires c' == Cursor(c.block, c.local + 1)
        || (c.local >= Cap(c.block) && blocks[c.block].next != 0 && c' == Cursor(blocks[c.block].next, 0))
    ensures Distance(blocks, chain, c', d) < Distance(blocks, chain, c, d)
  {
    DistanceIs(blocks, chain, c, d);
    DistanceIs(blocks, chain, c', d);
    if c' != Cursor(c.block, c.local + 1) {
      var i := blocks[c.block].txSeq;
      CapIsReached(blocks, chain, c);
      assert NodeOk(blocks, chain[i + 1], i + 1);
      StartNext(blocks, chain, i);
    }
  }

  /** No other step changes it. */
  lemma SyncOthersKeep(s: CState, chain: seq<nat>, a: CAction, chain': seq<nat>, t: nat)
    requires CInv(s, chain) && CEnabled(s, a) && !FlushesFor(a, t) && t < |s.syncs| && CInv(CDo(s, a), chain')
    ensures t < |CDo(s, a).syncs| && CDo(s, a).syncs[t] == s.syncs[t]
    ensures SyncRank(CDo(s, a).tx.blocks, chain', s.syncs[t]) == SyncRank(s.tx.blocks, chain, s.syncs[t])
  {
    assert SyncOk(s, chain, s.syncs[t]);
    if s.syncs[t].Flushing? {
      PositionStays(s, a, chain, chain', s.syncs[t].at);
      PositionStays(s, a, chain, chain', s.syncs[t].end);
      SameDistance(s.tx.blocks, chain, CDo(s, a).tx.blocks, chain', s.syncs[t].at, s.syncs[t].end);
    }
  }

  lemma SameDistance(blocks: map<nat, TxBlock>, chain: seq<nat>, blocks': map<nat, TxBlock>, chain': seq<nat>,
                     c: Cursor, d: Cursor)
    requires CursorOk(blocks, chain, c) && CursorOk(blocks', chain', c)
    requires CursorOk(blocks, chain, d) && CursorOk(blocks', chain', d)
    requires Pos(blocks, chain, c) == Pos(blocks', chain', c) && Pos(blocks, chain, d) == Pos(blocks', chain', d)
    requires blocks'[c.block].txSeq == blocks[c.block].txSeq && blocks'[d.block].txSeq == blocks[d.block].txSeq
    ensures Distance(blocks', chain', c, d) == Distance(blocks, chain, c, d)
  {
  }

  /** The flush steps for slot `t` among the actions `i .. j - 1`. */
  function FlushSteps(acts: seq<CAction>, t: nat, i: nat, j: nat): nat
    requires i <= j <= |acts|
  {
    if i == j then 0 else FlushSteps(acts, t, i, j - 1) + if FlushesFor(acts[j - 1], t) then 1 else 0
  }

  lemma SyncStepRank(s: CState, chain: seq<nat>, a: CAction, t: nat, chain': seq<nat>)
    requires CInv(s, chain) && CEnabled(s, a) && Running(s, t) && CInv(CDo(s, a), chain')
    ensures SyncRank(CDo(s, a).tx.blocks, chain', CDo(s, a).syncs[t]) + (if FlushesFor(a, t) then 1 else 0)
         <= SyncRank(s.tx.blocks, chain, s.syncs[t])
  {
    if FlushesFor(a, t) {
      SameChain(s.tx.blocks, chain, chain');
      SyncStepLowers(s, chain, a, t);
    } else {
      SyncOthersKeep(s, chain, a, chain', t);
    }
  }

  ghost function RankAt(run: seq<CState>, t: nat, chains: seq<seq<nat>>, k: nat): nat
    requires k < |run| == |chains|
  {
    if Running(run[k], t) then SyncRank(run[k].tx.blocks, chains[k], run[k].syncs[t]) else 0
  }

  ghost predicate HasChain(run: seq<CState>, chains: seq<seq<nat>>, k: nat)
  {
    k < |run| == |chains| && CInv(run[k], chains[k])
  }

  /** Step `k` lowers the rank if it is one of the call, and does not raise it. */
  ghost predicate Lowers(run: seq<CState>, acts: seq<CAction>, t: nat, chains: seq<seq<nat>>, k: nat)
  {
    && k < |acts| < |run| == |chains|
    && RankAt(run, t, chains, k + 1) + (if FlushesFor(acts[k], t) then 1 else 0) <= RankAt(run, t, chains, k)
  }

  lemma NextRank(run: seq<CState>, acts: seq<CAction>, t: nat, chains: seq<seq<nat>>, k: nat)
    requires CTrace(run, acts) && k < |acts| && Running(run[k], t)
    requires HasChain(run, chains, k) && HasChain(run, chains, k + 1)
    ensures Lowers(run, acts, t, chains, k)
  {
    assert CStepAt(run, acts, k);
    SyncStepRank(run[k], chains[k], acts[k], t, chains[k + 1]);
  }

  lemma {:induction false} RankSum(ranks: seq<nat>, acts: seq<CAction>, t: nat, i: nat, j: nat)
    requires i <= j <= |acts| < |ranks|
    requires forall k | i <= k < j :: ranks[k + 1] + (if FlushesFor(acts[k], t) then 1 else 0) <= ranks[k]
    ensures FlushSteps(acts, t, i, j) + ranks[j] <= ranks[i]
  {
    if i < j { RankSum(ranks, acts, t, i, j - 1); }
  }

  lemma {:induction false} Chains(run: seq<CState>, n: nat) returns (chains: seq<seq<nat>>)
    requires CRun(run) && n <= |run|
    ensures |chains| == n && forall k | 0 <= k < n :: CInv(run[k], chains[k])
  {
    if n == 0 {
      chains := [];
    } else {
      chains := Chains(run, n - 1);
      var chain := CRunInv(run, n - 1);
      chains := chains + [chain];
    }
  }

  lemma SyncProgress(run: seq<CState>, acts: seq<CAction>, t: nat, i: nat, j: nat, chains: seq<seq<nat>>)
    requires i <= j <= |acts| < |run| == |chains| && forall k | i <= k < j :: Lowers(run, acts, t, chains, k)
    ensures FlushSteps(acts, t, i, j) + RankAt(run, t, chains, j) <= RankAt(run, t, chains, i)
  {
    var ranks := seq(|run|, k requires 0 <= k < |run| => RankAt(run, t, chains, k));
    forall k | i <= k < j ensures ranks[k + 1] + (if FlushesFor(acts[k], t) then 1 else 0) <= ranks[k] {
      assert Lowers(run, acts, t, chains, k);
    }
    RankSum(ranks, acts, t, i, j);
  }

  /** As long as the call of step `j` runs, it has a step to take. Altogether it takes
      at most one step for every entry and every link between the recorded tail and its
      cursor, and three more. */
  lemma FsyncEnds(run: seq<CState>, acts: seq<CAction>, t: nat, u: nat, j: nat, i: nat, chain: seq<nat>)
    requires CTrace(run, acts) && j < i <= |acts| && acts[j] == BeginSync(t, u) && IsChain(run[j].tx.blocks, chain)
    requires forall k | j < k <= i :: Running(run[k], t)
    ensures u < |run[j].tx.threads|
    ensures FlushSteps(acts, t, j + 1, i)
          < 3 + Distance(run[j].tx.blocks, chain, run[j].tail, run[j].tx.threads[u].cursor)
    ensures exists a :: FlushesFor(a, t) && CEnabled(run[i], a)
  {
    var chains := Chains(run, |run|);
    forall k | 0 <= k < |run| ensures HasChain(run, chains, k) {}
    FirstRank(run, acts, t, u, j, chain, chains);
    forall k | j + 1 <= k < i ensures Lowers(run, acts, t, chains, k) {
      assert Running(run[k], t);
      NextRank(run, acts, t, chains, k);
    }
    SyncProgress(run, acts, t, j + 1, i, chains);
    assert Running(run[i], t) && HasChain(run, chains, i);
    var a := SyncNeverStuck(run[i], chains[i], t);
  }

  lemma FirstRank(run: seq<CState>, acts: seq<CAction>, t: nat, u: nat, j: nat, chain: seq<nat>, chains: seq<seq<nat>>)
    requires CTrace(run, acts) && j < |acts| && acts[j] == BeginSync(t, u) && IsChain(run[j].tx.blocks, chain)
    requires HasChain(run, chains, j + 1)
    ensures u < |run[j].tx.threads|
    ensures RankAt(run, t, chains, j + 1)
         <= 3 + Distance(run[j].tx.blocks, chain, run[j].tail, run[j].tx.threads[u].cursor)
  {
    assert CStepAt(run, acts, j);
    SameChain(run[j].tx.blocks, chain, chains[j + 1]);
  }
}
