/** The optimistic commit protocol for one-block transactions: any number of
    threads, in any number of processes, read and write single blocks of one
    file through a shared log. Each step is one shared-memory action, so a block
    that a thread is copying from can be superseded, freed, handed out and
    overwritten before the copy ends. */
module Occ {
  import opened Layout
  import opened ByteFile

  // A committed entry maps block `vidx` to the logical block `lidx`; the last
  // `leftover` bytes of that block lie outside the file.
  datatype Entry = Entry(vidx: nat, lidx: nat, leftover: nat)

  datatype Op =
    | WriteBlock(vidx: nat, lo: nat, data: seq<Byte>)
    | ReadBlock(vidx: nat, lo: nat, count: nat)

  // Where a thread stands in its transaction.
  datatype Pc =
    | Idle
    | Begun                 // destination allocated, no snapshot yet
    | Ready                 // snapshot of cursor and file size taken
    | Copy(next: nat)       // bytes below `next` have been handled
    | Try                   // about to commit (write) or to validate (read)
    | Scan(conflict: bool)  // catching up with the log
    | Recycle               // committed; `image` is still to be freed
    | Done(at: nat)         // a read that took effect after `at` commits

  datatype Thread = Thread(
    proc: nat,          // the process whose block table it uses
    pc: Pc,
    op: Op,
    dst: nat,           // destination block of a write
    buf: Block,         // what a read has copied so far, by position in the block
    cursor: nat,        // position in the log
    image: nat,         // block to copy from and, after a commit, to free
    leftover: nat,
    size: nat,          // file size as this thread knows it
    count: nat,         // length of a read after the cut at end of file
    start: nat,         // length of the log when the transaction began
    snap: nat)          // position of the snapshot

  // One process' block table: `table` reflects the first `applied` entries, and
  // (`cursor`, `cursorSize`) is the pair that was published last.
  datatype Proc = Proc(table: map<nat, nat>, applied: nat, size: nat, cursor: nat, cursorSize: nat)

  // Logical block 0 stands for "no block" and reads as zeros.
  datatype State = State(
    mem: seq<Block>,
    log: seq<Entry>,
    hist: seq<Update>,    // the writes behind the entries of `log`
    free: set<nat>,
    procs: seq<Proc>,
    threads: seq<Thread>)

  datatype Action =
    | Begin(t: nat, op: Op, block: nat)
    | Snapshot(t: nat)
    | Prepare(t: nat)
    | CopyByte(t: nat)
    | CopyEnd(t: nat)
    | TryCommit(t: nat)
    | Validate(t: nat)
    | ScanEntry(t: nat)
    | ScanEnd(t: nat)
    | Release(t: nat)
    | Finish(t: nat)
    | ApplyEntry(p: nat)
    | Publish(p: nat)

  /* The log as a mapping. */

  function Lookup(log: seq<Entry>, v: nat): nat
  {
    if log == [] then 0
    else if log[|log| - 1].vidx == v then log[|log| - 1].lidx
    else Lookup(log[..|log| - 1], v)
  }

  function EntryEnd(e: Entry): int { (e.vidx + 1) * BLOCK_SIZE - e.leftover }

  function Grow(size: nat, e: Entry): nat { if EntryEnd(e) > size then EntryEnd(e) else size }

  function SizeOf(log: seq<Entry>): nat
  {
    if log == [] then 0 else Grow(SizeOf(log[..|log| - 1]), log[|log| - 1])
  }

  function Get(table: map<nat, nat>, v: nat): nat { if v in table then table[v] else 0 }

  /* Operations. */

  predicate OpOk(op: Op)
  {
    match op
    case WriteBlock(_, lo, data) => data != [] && lo + |data| <= BLOCK_SIZE
    case ReadBlock(_, lo, count) => count > 0 && lo + count <= BLOCK_SIZE
  }

  function Offset(op: Op): nat { op.vidx * BLOCK_SIZE + op.lo }

  function End(op: Op): nat requires op.WriteBlock? { Offset(op) + |op.data| }

  /** Whether the copy has to fetch position `j` of the block. */
  predicate Needs(th: Thread, j: nat)
  {
    match th.op
    case WriteBlock(_, lo, data) => !(lo <= j < lo + |data|)
    case ReadBlock(_, lo, _) => lo <= j < lo + th.count
  }

  /** Recomputes the bytes left over; an entry already inlined stays as it is. */
  function Recheck(leftover: nat, op: Op, size: nat): nat
    requires op.WriteBlock?
  {
    if leftover == 0 then 0 else Leftover(End(op), size)
  }

  /* Steps. */

  function ThreadOf(a: Action): nat requires !a.ApplyEntry? && !a.Publish? { a.t }

  predicate Enabled(s: State, a: Action)
  {
    match a
    case ApplyEntry(p) => p < |s.procs| && s.procs[p].applied < |s.log|
    case Publish(p) => p < |s.procs|
    case Begin(t, op, b) =>
      && t < |s.threads| && s.threads[t].pc.Idle? && OpOk(op)
      && (op.WriteBlock? ==> b in s.free)
    // The published pair was at the tail at some moment since the transaction
    // began: either its slot was found empty, or the table was brought up to date.
    case Snapshot(t) =>
      && t < |s.threads| && s.threads[t].pc.Begun? && s.threads[t].proc < |s.procs|
      && s.threads[t].start <= s.procs[s.threads[t].proc].cursor
    case Prepare(t) =>
      && t < |s.threads| && s.threads[t].pc.Ready? && OpOk(s.threads[t].op)
      && s.threads[t].proc < |s.procs| && s.threads[t].dst < |s.mem|
    case CopyByte(t) =>
      && t < |s.threads| && s.threads[t].pc.Copy? && s.threads[t].pc.next < BLOCK_SIZE
      && s.threads[t].image < |s.mem| && s.threads[t].dst < |s.mem|
    case CopyEnd(t) => t < |s.threads| && s.threads[t].pc.Copy? && s.threads[t].pc.next == BLOCK_SIZE
    case TryCommit(t) => t < |s.threads| && s.threads[t].pc.Try? && s.threads[t].op.WriteBlock?
    case Validate(t) => t < |s.threads| && s.threads[t].pc.Try? && s.threads[t].op.ReadBlock?
    case ScanEntry(t) => t < |s.threads| && s.threads[t].pc.Scan? && s.threads[t].cursor < |s.log|
    case ScanEnd(t) => t < |s.threads| && s.threads[t].pc.Scan? && s.threads[t].cursor == |s.log|
    case Release(t) => t < |s.threads| && s.threads[t].pc.Recycle?
    case Finish(t) => t < |s.threads| && s.threads[t].pc.Done?
  }

  function DoBegin(s: State, th: Thread, op: Op, b: nat): (State, Thread)
  {
    if op.WriteBlock?
    then (s.(free := s.free - {b}), th.(pc := Begun, op := op, start := |s.log|, dst := b))
    else (s, th.(pc := Begun, op := op, start := |s.log|, dst := 0))
  }

  function DoSnapshot(th: Thread, p: Proc): Thread
  {
    var th1 := th.(pc := Ready, cursor := p.cursor, size := p.cursorSize, snap := p.cursor);
    match th.op
    case WriteBlock(_, _, _) => th1
    case ReadBlock(_, _, count) =>
      var off := Offset(th.op);
      if off >= p.cursorSize then th1.(pc := Done(p.cursor), count := 0)
      else th1.(count := Min(count, p.cursorSize - off))
  }

  /** Prepares the entry, reads the block table, and lays the data into the
      private destination block. */
  function DoPrepare(s: State, th: Thread): (State, Thread)
    requires th.proc < |s.procs| && th.dst < |s.mem| && OpOk(th.op)
  {
    var th1 := th.(pc := Copy(0), image := Get(s.procs[th.proc].table, th.op.vidx));
    match th.op
    case ReadBlock(_, _, _) => (s, th1)
    case WriteBlock(_, lo, data) =>
      (s.(mem := s.mem[th.dst := Overlay(s.mem[th.dst], lo, data)]),
       th1.(leftover := Leftover(End(th.op), th.size)))
  }

  function DoCopyByte(s: State, th: Thread): (State, Thread)
    requires th.pc.Copy? && th.pc.next < BLOCK_SIZE && th.image < |s.mem| && th.dst < |s.mem|
  {
    var j := th.pc.next;
    var th1 := th.(pc := Copy(j + 1));
    if !Needs(th, j) then (s, th1)
    else
      var x := s.mem[th.image][j];
      if th.op.WriteBlock?
      then (s.(mem := s.mem[th.dst := s.mem[th.dst][j := x]]), th1)
      else (s, th1.(buf := th.buf[j := x]))
  }

  /** The compare-and-swap of the first empty slot. */
  function DoTryCommit(s: State, th: Thread): (State, Thread)
    requires th.op.WriteBlock?
  {
    if th.cursor == |s.log|
    then (s.(log := s.log + [Entry(th.op.vidx, th.dst, th.leftover)],
             hist := s.hist + [Update(Offset(th.op), th.op.data)]),
          th.(pc := Recycle))
    else (s, th.(pc := Scan(false)))
  }

  function DoValidate(s: State, th: Thread): Thread
  {
    th.(pc := if th.cursor == |s.log| then Done(|s.log|) else Scan(false))
  }

  function DoScanEntry(th: Thread, e: Entry): Thread
    requires th.pc.Scan?
  {
    var th1 := th.(cursor := th.cursor + 1, size := Grow(th.size, e));
    if e.vidx == th.op.vidx then th1.(image := e.lidx, pc := Scan(true)) else th1
  }

  function DoScanEnd(s: State, th: Thread): Thread
    requires th.pc.Scan?
  {
    match th.op
    case WriteBlock(_, _, _) =>
      th.(leftover := Recheck(th.leftover, th.op, th.size),
          pc := if th.pc.conflict then Copy(0) else Try)
    case ReadBlock(_, _, _) =>
      th.(pc := if th.pc.conflict then Copy(0) else Done(|s.log|))
  }

  function DoRelease(s: State, th: Thread): (State, Thread)
  {
    (if th.image == 0 then s else s.(free := s.free + {th.image}), th.(pc := Idle))
  }

  function DoThread(s: State, a: Action): (State, Thread)
    requires !a.ApplyEntry? && !a.Publish? && Enabled(s, a)
  {
    var th := s.threads[ThreadOf(a)];
    match a
    case Begin(_, op, b) => DoBegin(s, th, op, b)
    case Snapshot(_) => (s, DoSnapshot(th, s.procs[th.proc]))
    case Prepare(_) => DoPrepare(s, th)
    case CopyByte(_) => DoCopyByte(s, th)
    case CopyEnd(_) => (s, th.(pc := Try))
    case TryCommit(_) => DoTryCommit(s, th)
    case Validate(_) => (s, DoValidate(s, th))
    case ScanEntry(_) => (s, DoScanEntry(th, s.log[th.cursor]))
    case ScanEnd(_) => (s, DoScanEnd(s, th))
    case Release(_) => DoRelease(s, th)
    case Finish(_) => (s, th.(pc := Idle))
  }

  /** The lock holder of process `p` applies the next log entry to the table. */
  function DoApply(p: Proc, e: Entry): Proc
  {
    p.(table := p.table[e.vidx := e.lidx], applied := p.applied + 1, size := Grow(p.size, e))
  }

  function Do(s: State, a: Action): State
    requires Enabled(s, a)
  {
    match a
    case ApplyEntry(p) => s.(procs := s.procs[p := DoApply(s.procs[p], s.log[s.procs[p].applied])])
    case Publish(p) =>
      s.(procs := s.procs[p := s.procs[p].(cursor := s.procs[p].applied, cursorSize := s.procs[p].size)])
    case _ =>
      var (s1, th1) := DoThread(s, a);
      s1.(threads := s1.threads[ThreadOf(a) := th1])
  }

  /** A fresh file: no entry, every block but block 0 free, every thread idle. */
  ghost predicate Init(s: State)
  {
    && |s.mem| > 0 && s.mem[0] == Zeros()
    && s.log == [] && s.hist == []
    && (forall b :: b in s.free <==> 0 < b < |s.mem|)
    && (forall p | 0 <= p < |s.procs| :: s.procs[p] == Proc(map[], 0, 0, 0, 0))
    && (forall t | 0 <= t < |s.threads| :: s.threads[t].pc.Idle? && s.threads[t].proc < |s.procs|)
  }

  ghost predicate Next(s: State, s': State)
  {
    exists a :: Enabled(s, a) && s' == Do(s, a)
  }

  /** A finite run: any interleaving of the threads' and tables' steps. */
  ghost predicate Run(states: seq<State>)
  {
    && states != [] && Init(states[0])
    && forall i, k | 0 <= i && k == i + 1 && k < |states| :: Next(states[i], states[k])
  }
}
