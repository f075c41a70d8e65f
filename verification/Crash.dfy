/** Durability of the slot chain: `fsync` and the committers' own flushes against
    a power failure that keeps or drops every unflushed store on its own. */
module Crash {
  import opened Layout
  import opened Entry
  import opened TxLog
  import opened TxLogSafety

  // A flush in progress (from `fsync`, or from a commit that enters a new cache
  // line) moves from the recorded tail to the cursor `end`.
  datatype Sync =
    | NoSync
    | Flushing(at: Cursor, end: Cursor)
    | Flushed(end: Cursor)   // fenced; the tail is not stored yet
    | Synced(end: Cursor)    // returned

  // `disk` is what is known to be persistent; `tail` is `flushed_tx_tail`.
  datatype CState = CState(tx: TxLog.State, disk: map<nat, TxBlock>, tail: Cursor, syncs: seq<Sync>)

  datatype CAction =
    | Tx(a: TxLog.Action)
    | BeginSync(t: nat, u: nat)   // flush up to the cursor of thread `u`
    | FlushSlot(t: nat)
    | FlushLink(t: nat)
    | Fence(t: nat)
    | StoreTail(t: nat)
    | Return(t: nat)

  /* Steps. */

  predicate Has(blocks: map<nat, TxBlock>, c: Cursor)
  {
    c.block in blocks && |blocks[c.block].slots| == Cap(c.block)
  }

  /** The slot range of the current block still to be flushed is not empty. */
  predicate SlotLeft(at: Cursor, end: Cursor)
  {
    at.local < if at.block == end.block then end.local else Cap(at.block)
  }

  predicate CEnabled(s: CState, a: CAction)
  {
    match a
    case Tx(x) => Enabled(s.tx, x)
    case BeginSync(t, u) =>
      && t < |s.syncs| && s.syncs[t].NoSync? && u < |s.tx.threads|
      && Has(s.tx.blocks, s.tail) && Has(s.tx.blocks, s.tx.threads[u].cursor)
    case FlushSlot(t) =>
      && t < |s.syncs| && s.syncs[t].Flushing?
      && var at := s.syncs[t].at;
         Has(s.tx.blocks, at) && Has(s.disk, at) && at.local < Cap(at.block) && SlotLeft(at, s.syncs[t].end)
    case FlushLink(t) =>
      && t < |s.syncs| && s.syncs[t].Flushing?
      && var at := s.syncs[t].at;
         Has(s.tx.blocks, at) && Has(s.disk, at) && at.block != s.syncs[t].end.block && !SlotLeft(at, s.syncs[t].end)
    case Fence(t) =>
      && t < |s.syncs| && s.syncs[t].Flushing?
      && s.syncs[t].at.block == s.syncs[t].end.block && !SlotLeft(s.syncs[t].at, s.syncs[t].end)
    case StoreTail(t) => t < |s.syncs| && s.syncs[t].Flushed?
    case Return(t) => t < |s.syncs| && s.syncs[t].Synced?
  }

  /** A block is persisted as a whole, zeroed, before it is linked. */
  function DoTx(s: CState, x: TxLog.Action): CState
    requires Enabled(s.tx, x)
  {
    var tx' := Do(s.tx, x);
    s.(tx := tx', disk := if x.Take? then s.disk[x.b := tx'.blocks[x.b]] else s.disk)
  }

  /** The recorded tail must not be an overflowed index, since the link out of
      the block is not flushed: step back to the last slot. */
  function Clamp(c: Cursor): Cursor
  {
    if c.local >= Cap(c.block) then Cursor(c.block, Cap(c.block) - 1) else c
  }

  function PersistSlot(disk: map<nat, TxBlock>, blocks: map<nat, TxBlock>, c: Cursor): map<nat, TxBlock>
    requires Has(disk, c) && Has(blocks, c) && c.local < Cap(c.block)
  {
    disk[c.block := disk[c.block].(slots := disk[c.block].slots[c.local := blocks[c.block].slots[c.local]])]
  }

  function PersistLink(disk: map<nat, TxBlock>, blocks: map<nat, TxBlock>, b: nat): map<nat, TxBlock>
    requires b in disk && b in blocks
  {
    disk[b := disk[b].(next := blocks[b].next)]
  }

  function CDo(s: CState, a: CAction): CState
    requires CEnabled(s, a)
  {
    match a
    case Tx(x) => DoTx(s, x)
    case BeginSync(t, u) =>
      var end := s.tx.threads[u].cursor;
      s.(syncs := s.syncs[t := if Before(s.tx.blocks, s.tail, end) then Flushing(s.tail, end) else Flushed(end)])
    case FlushSlot(t) =>
      var at := s.syncs[t].at;
      s.(disk := PersistSlot(s.disk, s.tx.blocks, at),
         syncs := s.syncs[t := Flushing(Cursor(at.block, at.local + 1), s.syncs[t].end)])
    case FlushLink(t) =>
      var b := s.syncs[t].at.block;
      s.(disk := PersistLink(s.disk, s.tx.blocks, b),
         syncs := s.syncs[t := Flushing(Cursor(s.tx.blocks[b].next, 0), s.syncs[t].end)])
    case Fence(t) => s.(syncs := s.syncs[t := Flushed(s.syncs[t].end)])
    case StoreTail(t) => s.(tail := Clamp(s.syncs[t].end), syncs := s.syncs[t := Synced(s.syncs[t].end)])
    case Return(t) => s.(syncs := s.syncs[t := NoSync])
  }

  ghost predicate CInit(s: CState)
  {
    && Init(s.tx) && s.disk == s.tx.blocks && s.tail == Cursor(0, 0)
    && forall t | 0 <= t < |s.syncs| :: s.syncs[t].NoSync?
  }

  ghost predicate CNext(s: CState, s': CState)
  {
    exists a :: CEnabled(s, a) && s' == CDo(s, a)
  }

  ghost predicate CRun(states: seq<CState>)
  {
    && states != [] && CInit(states[0])
    && forall i, k | 0 <= i && k == i + 1 && k < |states| :: CNext(states[i], states[k])
  }

  /* Crash images and recovery. */

  /** What a power failure may leave of a block: each slot, and the link, is
      either what was persisted or what was stored last. */
  ghost predicate Torn(img: TxBlock, disk: TxBlock, blk: TxBlock)
  {
    && |img.slots| == |blk.slots| == |disk.slots|
    && (forall j | 0 <= j < |img.slots| :: img.slots[j] == disk.slots[j] || img.slots[j] == blk.slots[j])
    && (img.next == disk.next || img.next == blk.next)
  }

  ghost predicate CrashImage(s: CState, img: map<nat, TxBlock>)
  {
    forall b | b in s.tx.blocks && b in s.disk :: b in img && Torn(img[b], s.disk[b], s.tx.blocks[b])
  }

  /** The replay after a restart: the entries from block `b` on, following a link
      only out of a full block. */
  function Recovered(img: map<nat, TxBlock>, b: nat): seq<TxEntry>
    decreases |img|
  {
    if b !in img then []
    else
      var es := Filled(img[b].slots);
      if |es| == |img[b].slots| && img[b].next != 0
      then es + Recovered(img - {b}, img[b].next)
      else es
  }

  /* The invariant. */

  /** What is persistent is never ahead of what was stored. */
  ghost predicate DiskBlockOk(disk: map<nat, TxBlock>, blocks: map<nat, TxBlock>, b: nat)
  {
    && b in disk && b in blocks && |disk[b].slots| == |blocks[b].slots|
    && (forall j | 0 <= j < |disk[b].slots| :: disk[b].slots[j].None? || disk[b].slots[j] == blocks[b].slots[j])
    && (disk[b].next == 0 || disk[b].next == blocks[b].next)
  }

  /** The first `n` slots of block `b` are persistent. */
  ghost predicate SlotsSafe(disk: map<nat, TxBlock>, blocks: map<nat, TxBlock>, b: nat, n: nat)
  {
    && b in disk && b in blocks && n <= |disk[b].slots| && n <= |blocks[b].slots|
    && forall j | 0 <= j < n :: disk[b].slots[j] == blocks[b].slots[j]
  }

  ghost predicate BlockSafe(disk: map<nat, TxBlock>, blocks: map<nat, TxBlock>, b: nat)
  {
    SlotsSafe(disk, blocks, b, Cap(b)) && disk[b].next == blocks[b].next
  }

  /** Every entry before cursor `c`, and every link on the way, is persistent. */
  ghost predicate FlushedTo(disk: map<nat, TxBlock>, blocks: map<nat, TxBlock>, chain: seq<nat>, c: Cursor)
  {
    && CursorOk(blocks, chain, c)
    && (forall i | 0 <= i < blocks[c.block].txSeq :: BlockSafe(disk, blocks, chain[i]))
    && SlotsSafe(disk, blocks, c.block, c.local)
  }

  /** Cursor `c` is in an earlier block than `d`, or not after it in the same block. */
  ghost predicate UpTo(blocks: map<nat, TxBlock>, c: Cursor, d: Cursor)
  {
    && c.block in blocks && d.block in blocks
    && (blocks[c.block].txSeq < blocks[d.block].txSeq || (c.block == d.block && c.local <= d.local))
  }

  ghost predicate SyncOk(s: CState, chain: seq<nat>, y: Sync)
  {
    match y
    case NoSync => true
    case Flushing(at, end) =>
      FlushedTo(s.disk, s.tx.blocks, chain, at) && CursorOk(s.tx.blocks, chain, end) && UpTo(s.tx.blocks, at, end)
    case Flushed(end) => FlushedTo(s.disk, s.tx.blocks, chain, end)
    case Synced(end) => FlushedTo(s.disk, s.tx.blocks, chain, end)
  }

  ghost predicate CInv(s: CState, chain: seq<nat>)
  {
    && Inv(s.tx, chain)
    && (forall i | 0 <= i < |chain| :: DiskBlockOk(s.disk, s.tx.blocks, chain[i]))
    && (forall t | 0 <= t < |s.tx.threads| && Held(s.tx.threads[t]) != 0 ::
          Held(s.tx.threads[t]) in s.disk && Blank(s.disk, Held(s.tx.threads[t])))
    && FlushedTo(s.disk, s.tx.blocks, chain, s.tail) && s.tail.local < Cap(s.tail.block)
    && (forall t | 0 <= t < |s.syncs| :: SyncOk(s, chain, s.syncs[t]))
  }
}
