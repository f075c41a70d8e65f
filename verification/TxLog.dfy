/** The slot chain: the meta block's slots followed by a linked list of
    transaction blocks. Threads race to fill the first empty slot and to link
    the next block; a thread that loses the race for a link keeps its block as a
    spare. */
module TxLog {
  import opened Layout
  import opened Entry

  // `next` is 0 until a successor is linked.
  datatype TxBlock = TxBlock(slots: seq<Option<TxEntry>>, next: nat, txSeq: nat)

  // `local` equal to the block's capacity is the overflow state.
  datatype Cursor = Cursor(block: nat, local: nat)

  // `linking` is the block that the thread has prepared and is about to link,
  // `spare` the one it failed to link; 0 stands for none.
  datatype Thread = Thread(cursor: Cursor, spare: nat, linking: nat)

  datatype State = State(blocks: map<nat, TxBlock>, pool: set<nat>, threads: seq<Thread>)

  datatype Action =
    | Rewind(t: nat)            // start a replay from the meta block
    | Adopt(t: nat, u: nat)     // take over the cursor published by another party
    | Advance(t: nat)           // step past a filled slot
    | Follow(t: nat)            // leave the overflow state along an existing link
    | Take(t: nat, b: nat)      // prepare a block to link, the spare one if any
    | Link(t: nat)              // compare-and-swap the link
    | Append(t: nat, e: TxEntry) // compare-and-swap the slot at the cursor

  function Cap(b: nat): nat { if b == 0 then META_SLOTS else TX_SLOTS }

  function EmptyBlock(b: nat, txSeq: nat): TxBlock
  {
    TxBlock(seq(Cap(b), _ => None), 0, txSeq)
  }

  /* Steps. */

  predicate Known(s: State, c: Cursor)
  {
    c.block in s.blocks && |s.blocks[c.block].slots| == Cap(c.block)
  }

  predicate Enabled(s: State, a: Action)
  {
    match a
    case Rewind(t) => t < |s.threads| && s.threads[t].linking == 0
    case Adopt(t, u) => t < |s.threads| && u < |s.threads| && s.threads[t].linking == 0
    case Advance(t) =>
      && t < |s.threads| && s.threads[t].linking == 0 && Known(s, s.threads[t].cursor)
      && var c := s.threads[t].cursor;
         c.local < Cap(c.block) && s.blocks[c.block].slots[c.local].Some?
    case Follow(t) =>
      && t < |s.threads| && s.threads[t].linking == 0 && Known(s, s.threads[t].cursor)
      && var c := s.threads[t].cursor; c.local >= Cap(c.block) && s.blocks[c.block].next != 0
    case Take(t, b) =>
      && t < |s.threads| && s.threads[t].linking == 0 && Known(s, s.threads[t].cursor)
      && (var c := s.threads[t].cursor; c.local >= Cap(c.block) && s.blocks[c.block].next == 0)
      && (if s.threads[t].spare != 0 then b == s.threads[t].spare && b in s.blocks else b in s.pool)
    case Link(t) =>
      && t < |s.threads| && s.threads[t].linking != 0 && Known(s, s.threads[t].cursor)
      && s.threads[t].cursor.local >= Cap(s.threads[t].cursor.block)
    case Append(t, e) =>
      && t < |s.threads| && s.threads[t].linking == 0 && Known(s, s.threads[t].cursor)
      && s.threads[t].cursor.local < Cap(s.threads[t].cursor.block)
  }

  /** The cursor at the start of the block after an exhausted one. */
  function Over(c: Cursor, next: nat): Cursor
    requires c.local >= Cap(c.block)
  {
    Cursor(next, c.local - Cap(c.block))
  }

  /** A spare block is reused as it is, except for its sequence number; any
      other block is zeroed first. */
  function DoTake(s: State, t: nat, b: nat): State
    requires Enabled(s, Take(t, b))
  {
    var th := s.threads[t];
    var txSeq := s.blocks[th.cursor.block].txSeq + 1;
    var blk := if th.spare != 0 then s.blocks[b].(txSeq := txSeq) else EmptyBlock(b, txSeq);
    s.(blocks := s.blocks[b := blk], pool := s.pool - {b},
       threads := s.threads[t := th.(spare := 0, linking := b)])
  }

  function DoLink(s: State, t: nat): State
    requires Enabled(s, Link(t))
  {
    var th := s.threads[t];
    var c := th.cursor;
    if s.blocks[c.block].next == 0
    then s.(blocks := s.blocks[c.block := s.blocks[c.block].(next := th.linking)],
            threads := s.threads[t := th.(cursor := Over(c, th.linking), linking := 0)])
    else
      var over := Over(c, s.blocks[c.block].next);
      s.(threads := s.threads[t := th.(cursor := over, spare := th.linking, linking := 0)])
  }

  function DoAppend(s: State, t: nat, e: TxEntry): State
    requires Enabled(s, Append(t, e))
  {
    var c := s.threads[t].cursor;
    var blk := s.blocks[c.block];
    if blk.slots[c.local].None?
    then s.(blocks := s.blocks[c.block := blk.(slots := blk.slots[c.local := Some(e)])])
    else s
  }

  function Do(s: State, a: Action): State
    requires Enabled(s, a)
  {
    match a
    case Rewind(t) => s.(threads := s.threads[t := s.threads[t].(cursor := Cursor(0, 0))])
    case Adopt(t, u) => s.(threads := s.threads[t := s.threads[t].(cursor := s.threads[u].cursor)])
    case Advance(t) =>
      var c := s.threads[t].cursor;
      s.(threads := s.threads[t := s.threads[t].(cursor := Cursor(c.block, c.local + 1))])
    case Follow(t) =>
      var c := s.threads[t].cursor;
      s.(threads := s.threads[t := s.threads[t].(cursor := Over(c, s.blocks[c.block].next))])
    case Take(t, b) => DoTake(s, t, b)
    case Link(t) => DoLink(s, t)
    case Append(t, e) => DoAppend(s, t, e)
  }

  ghost predicate Init(s: State)
  {
    && s.blocks == map[0 := EmptyBlock(0, 0)]
    && 0 !in s.pool
    && forall t | 0 <= t < |s.threads| :: s.threads[t] == Thread(Cursor(0, 0), 0, 0)
  }

  ghost predicate Next(s: State, s': State)
  {
    exists a :: Enabled(s, a) && s' == Do(s, a)
  }

  ghost predicate Run(states: seq<State>)
  {
    && states != [] && Init(states[0])
    && forall i | 0 <= i < |states| - 1 :: Next(states[i], states[i + 1])
  }

  /* The log that a chain of blocks spells out. */

  /** The entries before the first empty slot. */
  function Filled(slots: seq<Option<TxEntry>>): (es: seq<TxEntry>)
    ensures |es| <= |slots|
    ensures forall j | 0 <= j < |es| :: slots[j] == Some(es[j])
    ensures |es| < |slots| ==> slots[|es|].None?
  {
    if slots == [] || slots[0].None? then [] else [slots[0].value] + Filled(slots[1..])
  }

  function SlotsOf(blocks: map<nat, TxBlock>, b: nat): seq<Option<TxEntry>>
  {
    if b in blocks then blocks[b].slots else []
  }

  /** The entries of the blocks in `chain`, in order. */
  function Log(blocks: map<nat, TxBlock>, chain: seq<nat>): seq<TxEntry>
  {
    if chain == [] then []
    else Log(blocks, chain[..|chain| - 1]) + Filled(SlotsOf(blocks, chain[|chain| - 1]))
  }

  /* The invariant. */

  /** No entry follows an empty slot. */
  ghost predicate GapFree(slots: seq<Option<TxEntry>>)
  {
    forall j | |Filled(slots)| <= j < |slots| :: slots[j].None?
  }

  ghost predicate NodeOk(blocks: map<nat, TxBlock>, b: nat, i: nat)
  {
    b in blocks && |blocks[b].slots| == Cap(b) && blocks[b].txSeq == i
  }

  /** Block `b` is full and leads to `n`. */
  ghost predicate LinkOk(blocks: map<nat, TxBlock>, b: nat, n: nat)
  {
    b in blocks && n != 0 && blocks[b].next == n && |Filled(blocks[b].slots)| == Cap(b)
  }

  /** `chain` is what a replay passes from the meta block on: only its last block can
      have empty slots, and sequence numbers count the links. A link out of a block
      with empty slots is not followed. */
  ghost predicate IsLog(blocks: map<nat, TxBlock>, chain: seq<nat>)
  {
    && chain != [] && chain[0] == 0
    && (forall i | 0 <= i < |chain| :: NodeOk(blocks, chain[i], i))
    && (forall i, k | 0 <= i && k == i + 1 && k < |chain| :: LinkOk(blocks, chain[i], chain[k]))
    && var last := chain[|chain| - 1]; blocks[last].next == 0 || |Filled(blocks[last].slots)| < Cap(last)
  }

  /** It is the whole list, as long as no collection has linked in another one. */
  ghost predicate IsChain(blocks: map<nat, TxBlock>, chain: seq<nat>)
  {
    && IsLog(blocks, chain)
    && var last := chain[|chain| - 1]; blocks[last].next == 0 && GapFree(blocks[last].slots)
  }

  /** Everything before the cursor is filled. */
  ghost predicate CursorOk(blocks: map<nat, TxBlock>, chain: seq<nat>, c: Cursor)
  {
    && c.block in blocks
    && var i := blocks[c.block].txSeq;
       i < |chain| && chain[i] == c.block && c.local <= |Filled(blocks[c.block].slots)|
  }

  /** The unlinked block that a thread keeps to itself, if any. */
  function Held(th: Thread): nat { if th.linking != 0 then th.linking else th.spare }

  /** A held block is all zeros, apart from its sequence number. */
  ghost predicate Blank(blocks: map<nat, TxBlock>, b: nat)
  {
    b in blocks && blocks[b] == EmptyBlock(b, blocks[b].txSeq)
  }

  ghost predicate ThreadOk(s: State, chain: seq<nat>, th: Thread)
  {
    && CursorOk(s.blocks, chain, th.cursor)
    && (th.linking != 0 ==>
          && th.spare == 0 && th.cursor.local == Cap(th.cursor.block) && th.linking in s.blocks
          && s.blocks[th.linking].txSeq == s.blocks[th.cursor.block].txSeq + 1)
    && (Held(th) != 0 ==> Held(th) !in chain && Held(th) !in s.pool && Blank(s.blocks, Held(th)))
  }

  ghost predicate Inv(s: State, chain: seq<nat>)
  {
    && IsChain(s.blocks, chain)
    && (forall b | b in s.pool :: b !in chain)
    && (forall t | 0 <= t < |s.threads| :: ThreadOk(s, chain, s.threads[t]))
    && (forall t, u | 0 <= t < u < |s.threads| && Held(s.threads[t]) != 0 :: Held(s.threads[t]) != Held(s.threads[u]))
  }
}
