/** Serializability and exactly-once recycling of the protocol in `Occ`. */
module OccSafety {
  import opened Layout
  import opened ByteFile
  import opened Occ

  // Who is responsible for a logical block.
  datatype Owner = Reserved | Free | Dst(t: nat) | Live(v: nat) | Pending(t: nat)

  /* The invariant. */

  ghost predicate NoneFrom(log: seq<Entry>, k: nat, v: nat)
  {
    forall i | k <= i < |log| :: log[i].vidx != v
  }

  predicate HasDst(th: Thread)
  {
    th.op.WriteBlock? && !th.pc.Idle? && !th.pc.Recycle? && !th.pc.Done?
  }

  predicate HasPending(th: Thread) { th.pc.Recycle? && th.image != 0 }

  /** The file that the committed writes produce on a plain byte array. */
  function Spec(s: State): File { Replay(s.hist) }

  ghost predicate Shape(s: State)
  {
    && |s.mem| > 0 && s.mem[0] == Zeros()
    && |s.hist| == |s.log|
    && (forall k | 0 <= k < |s.log| :: 0 < s.log[k].lidx < |s.mem|)
    && SizeOf(s.log) == |Spec(s)|
  }

  /** The block mapped at `v` holds exactly what the reference file has there. */
  ghost predicate Mapped(s: State, v: nat)
  {
    Lookup(s.log, v) < |s.mem| && s.mem[Lookup(s.log, v)] == Page(Spec(s), v)
  }

  ghost predicate ProcOk(s: State, p: Proc)
  {
    && p.cursor <= p.applied <= |s.log|
    && (forall v: nat :: Get(p.table, v) == Lookup(s.log[..p.applied], v))
    && p.size == SizeOf(s.log[..p.applied])
    && p.cursorSize == SizeOf(s.log[..p.cursor])
  }

  /** No later entry touches the thread's block: its source is still the one
      mapped. Only in this case is anything known about what it copied. */
  ghost predicate Quiet(s: State, th: Thread) { NoneFrom(s.log, th.cursor, th.op.vidx) }

  predicate Active(th: Thread) { th.pc.Copy? || th.pc.Try? || th.pc.Scan? }

  function Data(s: State, th: Thread): Block
    requires th.dst < |s.mem|
  {
    if th.op.WriteBlock? then s.mem[th.dst] else th.buf
  }

  /** How much of the block is known to be copied. */
  function Copied(th: Thread): nat
  {
    match th.pc
    case Copy(next) => next
    case Try => BLOCK_SIZE
    case Scan(conflict) => if conflict then 0 else BLOCK_SIZE
    case _ => 0
  }

  ghost predicate CopiedOk(s: State, th: Thread)
    requires th.dst < |s.mem|
  {
    forall j | 0 <= j < Copied(th) <= BLOCK_SIZE && Needs(th, j) :: Data(s, th)[j] == Page(Spec(s), th.op.vidx)[j]
  }

  ghost predicate WriteOk(s: State, th: Thread)
    requires th.op.WriteBlock? && OpOk(th.op) && th.dst < |s.mem|
  {
    && (forall j | th.op.lo <= j < th.op.lo + |th.op.data| :: s.mem[th.dst][j] == th.op.data[j - th.op.lo])
    && LeftoverOk(th.leftover, End(th.op), th.size)
    && (!th.pc.Scan? ==> th.leftover == Leftover(End(th.op), th.size))
  }

  /** A read was cut at the end of the file that its snapshot saw. */
  ghost predicate CutOk(s: State, th: Thread)
  {
    && th.op.ReadBlock? && th.snap <= |s.log|
    && Offset(th.op) < SizeOf(s.log[..th.snap])
    && th.count == Min(th.op.count, SizeOf(s.log[..th.snap]) - Offset(th.op))
  }

  ghost predicate ReadDone(s: State, th: Thread)
    requires th.pc.Done?
  {
    var at := th.pc.at;
    && th.op.ReadBlock? && th.start <= th.snap <= at <= |s.hist| && at <= |s.log|
    && (th.count == 0 ==> at == th.snap && SizeOf(s.log[..th.snap]) <= Offset(th.op))
    && (th.count > 0 ==>
          && CutOk(s, th)
          && forall j | th.op.lo <= j < th.op.lo + th.count <= BLOCK_SIZE ::
               th.buf[j] == Page(Replay(s.hist[..at]), th.op.vidx)[j])
  }

  ghost predicate ThreadOk(s: State, th: Thread)
  {
    && th.proc < |s.procs|
    && (!th.pc.Idle? ==> OpOk(th.op))
    && (th.pc.Recycle? ==> th.op.WriteBlock?)
    && (th.pc.Begun? && th.op.ReadBlock? ==> th.dst == 0)
    && (th.pc.Ready? || Active(th) ==>
          && th.cursor <= |s.log| && th.dst < |s.mem| && th.size == SizeOf(s.log[..th.cursor])
          && (th.op.ReadBlock? ==> CutOk(s, th) && th.start <= th.snap <= th.cursor))
    && (th.pc.Ready? ==> th.cursor <= s.procs[th.proc].applied)
    && (Active(th) ==>
          && th.image < |s.mem| && Copied(th) <= BLOCK_SIZE
          && (Quiet(s, th) ==> th.image == Lookup(s.log, th.op.vidx) && CopiedOk(s, th))
          && (th.op.WriteBlock? ==> WriteOk(s, th)))
    && (th.pc.Done? ==> ReadDone(s, th))
  }

  ghost predicate BlockOwned(s: State, o: seq<Owner>, b: nat)
    requires 0 < b < |o|
  {
    match o[b]
    case Reserved => false
    case Free => b in s.free
    case Dst(t) => t < |s.threads| && HasDst(s.threads[t]) && s.threads[t].dst == b
    case Live(v) => Lookup(s.log, v) == b
    case Pending(t) => t < |s.threads| && HasPending(s.threads[t]) && s.threads[t].image == b
  }

  ghost predicate ThreadOwns(o: seq<Owner>, t: nat, th: Thread)
  {
    && (HasDst(th) ==> 0 < th.dst < |o| && o[th.dst] == Dst(t))
    && (HasPending(th) ==> th.image < |o| && o[th.image] == Pending(t))
  }

  ghost predicate Owned(s: State, o: seq<Owner>)
  {
    && |o| == |s.mem|
    && (forall b | 0 < b < |o| :: BlockOwned(s, o, b))
    && (forall b | b in s.free :: 0 < b < |o| && o[b] == Free)
    && (forall t | 0 <= t < |s.threads| :: ThreadOwns(o, t, s.threads[t]))
    && (forall v: nat :: Lookup(s.log, v) != 0 ==> Lookup(s.log, v) < |o| && o[Lookup(s.log, v)] == Live(v))
  }

  ghost predicate Inv(s: State, o: seq<Owner>)
  {
    && Shape(s)
    && Owned(s, o)
    && (forall v: nat :: Mapped(s, v))
    && (forall p | 0 <= p < |s.procs| :: ProcOk(s, s.procs[p]))
    && (forall t | 0 <= t < |s.threads| :: ThreadOk(s, s.threads[t]))
  }

  /* Facts about the log. */

  lemma {:induction false} LookupPrefix(log: seq<Entry>, k: nat, v: nat)
    requires k <= |log| && NoneFrom(log, k, v)
    ensures Lookup(log[..k], v) == Lookup(log, v)
  {
    if k < |log| {
      LookupPrefix(log[..|log| - 1], k, v);
      assert log[..|log| - 1][..k] == log[..k];
    } else {
      assert log[..k] == log;
    }
  }

  lemma {:induction false} LookupRange(log: seq<Entry>, n: nat, v: nat)
    requires n > 0 && forall k | 0 <= k < |log| :: 0 < log[k].lidx < n
    ensures Lookup(log, v) < n
  {
    if log != [] {
      LookupRange(log[..|log| - 1], n, v);
    }
  }

  lemma {:induction false} LookupAppend(log: seq<Entry>, e: Entry, v: nat)
    ensures Lookup(log + [e], v) == if e.vidx == v then e.lidx else Lookup(log, v)
  {
    assert (log + [e])[..|log|] == log;
  }

  lemma {:induction false} SizeAppend(log: seq<Entry>, e: Entry)
    ensures SizeOf(log + [e]) == Grow(SizeOf(log), e)
  {
    assert (log + [e])[..|log|] == log;
  }

  lemma {:induction false} SizeMono(log: seq<Entry>, k: nat)
    requires k <= |log|
    ensures SizeOf(log[..k]) <= SizeOf(log)
  {
    if k < |log| {
      SizeMono(log[..|log| - 1], k);
      assert log[..|log| - 1][..k] == log[..k];
    } else {
      assert log[..k] == log;
    }
  }

  lemma {:induction false} ReplayAppend(us: seq<Update>, u: Update)
    ensures Replay(us + [u]) == Write(Replay(us), u)
  {
    assert (us + [u])[..|us|] == us;
  }

  /* Framing: steps of one thread do not disturb the others. */

  /** A thread's own invariant only depends on the log, its process' progress
      and the contents of its destination block. */
  lemma FrameThread(s: State, s': State, th: Thread)
    requires ThreadOk(s, th)
    requires s'.log == s.log && s'.hist == s.hist && |s'.mem| == |s.mem| && |s'.procs| == |s.procs|
    requires forall p | 0 <= p < |s.procs| :: s.procs[p].applied <= s'.procs[p].applied
    requires HasDst(th) && th.dst < |s.mem| ==> s'.mem[th.dst] == s.mem[th.dst]
    ensures ThreadOk(s', th)
  {
    if Active(th) && Quiet(s', th) {
      assert Quiet(s, th);
      assert CopiedOk(s, th);
      assert Data(s', th) == Data(s, th);
    }
    if Active(th) && th.op.WriteBlock? {
      assert WriteOk(s, th);
    }
  }

  /** A step of thread `t` that touches at most its own destination block. */
  lemma LocalStep(s: State, s': State, o: seq<Owner>, t: nat)
    requires Inv(s, o) && t < |s.threads| && |s'.mem| == |s.mem| && |s'.threads| == |s.threads|
    requires s' == s.(mem := s'.mem, threads := s.threads[t := s'.threads[t]])
    requires forall b | 0 <= b < |s.mem| && s'.mem[b] != s.mem[b] :: HasDst(s.threads[t]) && b == s.threads[t].dst
    requires HasDst(s'.threads[t]) == HasDst(s.threads[t]) && s'.threads[t].dst == s.threads[t].dst
    requires !HasPending(s.threads[t]) && !HasPending(s'.threads[t])
    requires ThreadOk(s', s'.threads[t])
    ensures Inv(s', o)
  {
    assert ThreadOwns(o, t, s.threads[t]);
    LocalStepOwned(s, s', o, t);
    forall v: nat ensures Mapped(s', v) {
      assert Mapped(s, v);
      if Lookup(s.log, v) != 0 { assert o[Lookup(s.log, v)] == Live(v); }
    }
    forall p | 0 <= p < |s'.procs| ensures ProcOk(s', s'.procs[p]) {
      assert ProcOk(s, s.procs[p]);
    }
    forall u | 0 <= u < |s.threads| ensures ThreadOk(s', s'.threads[u]) {
      if u != t {
        assert ThreadOk(s, s.threads[u]) && ThreadOwns(o, u, s.threads[u]);
        FrameThread(s, s', s.threads[u]);
      }
    }
  }

  lemma LocalStepOwned(s: State, s': State, o: seq<Owner>, t: nat)
    requires Owned(s, o) && t < |s.threads| && |s'.mem| == |s.mem| && |s'.threads| == |s.threads|
    requires s' == s.(mem := s'.mem, threads := s.threads[t := s'.threads[t]])
    requires HasDst(s'.threads[t]) == HasDst(s.threads[t]) && s'.threads[t].dst == s.threads[t].dst
    requires !HasPending(s.threads[t]) && !HasPending(s'.threads[t])
    ensures Owned(s', o)
  {
    forall b | 0 < b < |o| ensures BlockOwned(s', o, b) {
      assert BlockOwned(s, o, b);
    }
    forall u | 0 <= u < |s'.threads| ensures ThreadOwns(o, u, s'.threads[u]) {
      assert ThreadOwns(o, u, s.threads[u]);
    }
  }

  /* The steps of one thread. */

  lemma SnapshotStep(s: State, o: seq<Owner>, t: nat)
    requires Inv(s, o) && Enabled(s, Snapshot(t))
    ensures Inv(Do(s, Snapshot(t)), o)
  {
    var s' := Do(s, Snapshot(t));
    var th, th' := s.threads[t], s'.threads[t];
    var p := s.procs[th.proc];
    assert ThreadOk(s, th) && ProcOk(s, p) && ThreadOwns(o, t, th);
    assert HasDst(th) ==> th.dst < |s.mem|;
    SnapshotThread(s, th);
    FrameThread(s, s', th');
    LocalStep(s, s', o, t);
  }

  /** A read is cut at the end of the file that the published pair describes. */
  lemma SnapshotThread(s: State, th: Thread)
    requires Shape(s) && ThreadOk(s, th) && th.pc.Begun? && th.proc < |s.procs| && ProcOk(s, s.procs[th.proc])
    requires th.start <= s.procs[th.proc].cursor && (HasDst(th) ==> th.dst < |s.mem|)
    ensures ThreadOk(s, DoSnapshot(th, s.procs[th.proc]))
  {
    var p := s.procs[th.proc];
    var th' := DoSnapshot(th, p);
    SizeMono(s.log, p.cursor);
    if th'.pc.Done? { assert ReadDone(s, th'); }
  }

  /** Reading the table after the snapshot is harmless: if the table is ahead of
      the cursor on this block, some entry from the cursor on touches it. */
  lemma PrepareThread(s: State, th: Thread)
    requires Shape(s) && ThreadOk(s, th) && th.pc.Ready? && ProcOk(s, s.procs[th.proc])
    ensures ThreadOk(DoPrepare(s, th).0, DoPrepare(s, th).1)
  {
    var (s', th') := DoPrepare(s, th);
    var p := s.procs[th.proc];
    LookupRange(s.log[..p.applied], |s.mem|, th.op.vidx);
    if Quiet(s', th') {
      LookupPrefix(s.log, p.applied, th.op.vidx);
    }
    assert th.op.ReadBlock? ==> CutOk(s, th) && CutOk(s', th');
    assert th.op.WriteBlock? ==> WriteOk(s', th');
  }

  lemma PrepareStep(s: State, o: seq<Owner>, t: nat)
    requires Inv(s, o) && Enabled(s, Prepare(t))
    ensures Inv(Do(s, Prepare(t)), o)
  {
    var s' := Do(s, Prepare(t));
    var th := s.threads[t];
    assert ThreadOk(s, th) && ThreadOwns(o, t, th) && ProcOk(s, s.procs[th.proc]);
    PrepareThread(s, th);
    FrameThread(DoPrepare(s, th).0, s', s'.threads[t]);
    LocalStep(s, s', o, t);
  }

  /** The byte that arrives is the right one unless the block was superseded. */
  lemma CopyByteThread(s: State, th: Thread)
    requires ThreadOk(s, th) && th.pc.Copy? && th.pc.next < BLOCK_SIZE && Mapped(s, th.op.vidx)
    ensures ThreadOk(DoCopyByte(s, th).0, DoCopyByte(s, th).1)
  {
    var (s', th') := DoCopyByte(s, th);
    if Quiet(s', th') {
      assert Quiet(s, th);
      CopyByteOk(s, th, s', th');
    }
    assert th.op.ReadBlock? ==> CutOk(s, th) && CutOk(s', th');
    assert th.op.WriteBlock? ==> WriteOk(s, th) && WriteOk(s', th');
  }

  lemma CopyByteStep(s: State, o: seq<Owner>, t: nat)
    requires Inv(s, o) && Enabled(s, CopyByte(t))
    ensures Inv(Do(s, CopyByte(t)), o)
  {
    var s' := Do(s, CopyByte(t));
    var th := s.threads[t];
    assert ThreadOk(s, th) && ThreadOwns(o, t, th) && Mapped(s, th.op.vidx);
    CopyByteThread(s, th);
    FrameThread(DoCopyByte(s, th).0, s', s'.threads[t]);
    LocalStep(s, s', o, t);
  }

  lemma CopyByteOk(s: State, th: Thread, s': State, th': Thread)
    requires th.pc.Copy? && th.pc.next < BLOCK_SIZE && th.image < |s.mem| && th.dst < |s.mem|
    requires DoCopyByte(s, th) == (s', th')
    requires CopiedOk(s, th) && s.mem[th.image] == Page(Spec(s), th.op.vidx)
    ensures CopiedOk(s', th')
  {
    forall j | 0 <= j < Copied(th') <= BLOCK_SIZE && Needs(th', j)
      ensures Data(s', th')[j] == Page(Spec(s'), th'.op.vidx)[j]
    {
      assert Needs(th, j) == Needs(th', j);
      if j < Copied(th) {
        assert Data(s, th)[j] == Page(Spec(s), th.op.vidx)[j];
      }
    }
  }

  lemma CopyEndStep(s: State, o: seq<Owner>, t: nat)
    requires Inv(s, o) && Enabled(s, CopyEnd(t))
    ensures Inv(Do(s, CopyEnd(t)), o)
  {
    var s' := Do(s, CopyEnd(t));
    var th, th' := s.threads[t], s'.threads[t];
    SameDataStep(s, s', o, t);
  }

  /** Steps that move the program counter but neither data nor cursor. */
  lemma SameDataStep(s: State, s': State, o: seq<Owner>, t: nat)
    requires Inv(s, o) && t < |s.threads| && Active(s.threads[t])
    requires |s'.threads| == |s.threads| && s' == s.(threads := s.threads[t := s'.threads[t]])
    requires Active(s'.threads[t]) && Copied(s'.threads[t]) <= Copied(s.threads[t])
    requires s'.threads[t] == s.threads[t].(pc := s'.threads[t].pc, leftover := s'.threads[t].leftover)
    requires s.threads[t].op.WriteBlock? && OpOk(s.threads[t].op) && s.threads[t].dst < |s.mem| ==>
               WriteOk(s, s.threads[t]) ==> WriteOk(s', s'.threads[t])
    ensures Inv(s', o)
  {
    var th, th' := s.threads[t], s'.threads[t];
    assert ThreadOk(s, th) && ThreadOwns(o, t, th);
    if Quiet(s', th') {
      assert Quiet(s, th) && CopiedOk(s, th);
      assert forall j {:trigger Needs(th', j)} :: Needs(th', j) == Needs(th, j);
      assert Data(s', th') == Data(s, th);
      assert CopiedOk(s', th');
    }
    if th.op.WriteBlock? { assert WriteOk(s, th) && WriteOk(s', th'); }
    assert CutOk(s, th) ==> CutOk(s', th');
    assert ThreadOk(s', th');
    LocalStep(s, s', o, t);
  }

  /** Catching up by one entry: afterwards the image is the mapped block again,
      unless a still later entry supersedes it. */
  lemma ScanEntryImage(s: State, th: Thread)
    requires ThreadOk(s, th) && th.pc.Scan? && th.cursor < |s.log|
    requires Quiet(s, DoScanEntry(th, s.log[th.cursor]))
    ensures DoScanEntry(th, s.log[th.cursor]).image == Lookup(s.log, th.op.vidx)
    ensures CopiedOk(s, DoScanEntry(th, s.log[th.cursor]))
  {
    var e := s.log[th.cursor];
    var th' := DoScanEntry(th, e);
    if e.vidx == th.op.vidx {
      LookupPrefix(s.log, th'.cursor, th.op.vidx);
      LookupAppend(s.log[..th.cursor], e, th.op.vidx);
      assert s.log[..th.cursor] + [e] == s.log[..th'.cursor];
    } else {
      assert Quiet(s, th) && CopiedOk(s, th);
      assert Data(s, th') == Data(s, th);
      assert forall j {:trigger Needs(th', j)} :: Needs(th', j) == Needs(th, j);
    }
  }

  /** The size follows the cursor. */
  lemma ScanEntrySize(s: State, th: Thread)
    requires th.pc.Scan? && th.cursor < |s.log| && th.size == SizeOf(s.log[..th.cursor])
    ensures DoScanEntry(th, s.log[th.cursor]).size == SizeOf(s.log[..th.cursor + 1])
    ensures th.size <= DoScanEntry(th, s.log[th.cursor]).size
  {
    assert s.log[..th.cursor + 1] == s.log[..th.cursor] + [s.log[th.cursor]];
    SizeAppend(s.log[..th.cursor], s.log[th.cursor]);
  }

  lemma ScanEntryWrite(s: State, th: Thread)
    requires ThreadOk(s, th) && th.pc.Scan? && th.cursor < |s.log| && th.op.WriteBlock?
    requires th.size <= DoScanEntry(th, s.log[th.cursor]).size
    ensures WriteOk(s, DoScanEntry(th, s.log[th.cursor]))
  {
    assert WriteOk(s, th);
    LeftoverMono(th.leftover, End(th.op), th.size, DoScanEntry(th, s.log[th.cursor]).size);
  }

  lemma ScanEntryThread(s: State, th: Thread)
    requires Shape(s) && ThreadOk(s, th) && th.pc.Scan? && th.cursor < |s.log|
    ensures ThreadOk(s, DoScanEntry(th, s.log[th.cursor]))
  {
    var th' := DoScanEntry(th, s.log[th.cursor]);
    ScanEntrySize(s, th);
    if Quiet(s, th') { ScanEntryImage(s, th); }
    if th.op.WriteBlock? {
      ScanEntryWrite(s, th);
    } else {
      assert CutOk(s, th) && CutOk(s, th');
    }
  }

  lemma ScanEntryStep(s: State, o: seq<Owner>, t: nat)
    requires Inv(s, o) && Enabled(s, ScanEntry(t))
    ensures Inv(Do(s, ScanEntry(t)), o)
  {
    var s' := Do(s, ScanEntry(t));
    assert ThreadOk(s, s.threads[t]);
    ScanEntryThread(s, s.threads[t]);
    FrameThread(s, s', s'.threads[t]);
    LocalStep(s, s', o, t);
  }

  /** A read that finds itself at the tail has what the file holds right now. */
  lemma ReadTakesEffect(s: State, th: Thread)
    requires Shape(s) && ThreadOk(s, th) && th.op.ReadBlock? && th.cursor == |s.log|
    requires th.pc.Try? || th.pc == Scan(false)
    ensures ThreadOk(s, th.(pc := Done(|s.log|)))
  {
    assert Quiet(s, th) && CopiedOk(s, th) && CutOk(s, th);
    assert s.hist[..|s.log|] == s.hist;
    var th' := th.(pc := Done(|s.log|));
    forall j | th.op.lo <= j < th.op.lo + th.count <= BLOCK_SIZE
      ensures th'.buf[j] == Page(Replay(s.hist[..|s.log|]), th.op.vidx)[j]
    {
      assert Needs(th, j);
    }
    assert CutOk(s, th');
    assert ReadDone(s, th');
  }

  lemma DoneStep(s: State, s': State, o: seq<Owner>, t: nat)
    requires Inv(s, o) && t < |s.threads| && s.threads[t].op.ReadBlock? && s.threads[t].cursor == |s.log|
    requires s.threads[t].pc.Try? || s.threads[t].pc == Scan(false)
    requires s' == s.(threads := s.threads[t := s.threads[t].(pc := Done(|s.log|))])
    ensures Inv(s', o)
  {
    assert ThreadOk(s, s.threads[t]);
    ReadTakesEffect(s, s.threads[t]);
    FrameThread(s, s', s'.threads[t]);
    LocalStep(s, s', o, t);
  }

  lemma ValidateStep(s: State, o: seq<Owner>, t: nat)
    requires Inv(s, o) && Enabled(s, Validate(t))
    ensures Inv(Do(s, Validate(t)), o)
  {
    if s.threads[t].cursor == |s.log| {
      DoneStep(s, Do(s, Validate(t)), o, t);
    } else {
      SameDataStep(s, Do(s, Validate(t)), o, t);
    }
  }

  lemma ScanEndStep(s: State, o: seq<Owner>, t: nat)
    requires Inv(s, o) && Enabled(s, ScanEnd(t))
    ensures Inv(Do(s, ScanEnd(t)), o)
  {
    var th := s.threads[t];
    if th.op.ReadBlock? && !th.pc.conflict {
      DoneStep(s, Do(s, ScanEnd(t)), o, t);
    } else {
      SameDataStep(s, Do(s, ScanEnd(t)), o, t);
    }
  }

  lemma FinishStep(s: State, o: seq<Owner>, t: nat)
    requires Inv(s, o) && Enabled(s, Finish(t))
    ensures Inv(Do(s, Finish(t)), o)
  {
    var s' := Do(s, Finish(t));
    assert ThreadOk(s, s.threads[t]) && ReadDone(s, s.threads[t]);
    LocalStep(s, s', o, t);
  }

  /* Steps that hand blocks over. */

  lemma BeginStep(s: State, o: seq<Owner>, t: nat, op: Op, b: nat) returns (o': seq<Owner>)
    requires Inv(s, o) && Enabled(s, Begin(t, op, b))
    ensures Inv(Do(s, Begin(t, op, b)), o')
  {
    var s' := Do(s, Begin(t, op, b));
    var th := s.threads[t];
    assert ThreadOk(s, th);
    if op.ReadBlock? {
      o' := o;
      BeginReadOwned(s, o, t, op, b);
    } else {
      o' := o[b := Dst(t)];
      BeginWriteOwned(s, o, t, op, b);
    }
    forall v: nat ensures Mapped(s', v) { assert Mapped(s, v); }
    forall p | 0 <= p < |s'.procs| ensures ProcOk(s', s'.procs[p]) { assert ProcOk(s, s.procs[p]); }
    forall u | 0 <= u < |s.threads| ensures ThreadOk(s', s'.threads[u]) {
      assert ThreadOk(s, s.threads[u]);
      if u != t { FrameThread(s, s', s.threads[u]); }
    }
  }

  lemma BeginReadOwned(s: State, o: seq<Owner>, t: nat, op: Op, b: nat)
    requires Owned(s, o) && Enabled(s, Begin(t, op, b)) && op.ReadBlock?
    ensures Owned(Do(s, Begin(t, op, b)), o)
  {
    var s' := Do(s, Begin(t, op, b));
    forall c | 0 < c < |o| ensures BlockOwned(s', o, c) { assert BlockOwned(s, o, c); }
    forall u | 0 <= u < |s'.threads| ensures ThreadOwns(o, u, s'.threads[u]) { assert ThreadOwns(o, u, s.threads[u]); }
  }

  lemma BeginWriteOwned(s: State, o: seq<Owner>, t: nat, op: Op, b: nat)
    requires Owned(s, o) && Enabled(s, Begin(t, op, b)) && op.WriteBlock?
    ensures b < |o| && Owned(Do(s, Begin(t, op, b)), o[b := Dst(t)])
  {
    var s', o' := Do(s, Begin(t, op, b)), o[b := Dst(t)];
    forall c | 0 < c < |o| ensures BlockOwned(s', o', c) { assert BlockOwned(s, o, c); }
    forall u | 0 <= u < |s'.threads| ensures ThreadOwns(o', u, s'.threads[u]) { assert ThreadOwns(o, u, s.threads[u]); }
  }

  lemma ReleaseStep(s: State, o: seq<Owner>, t: nat) returns (o': seq<Owner>)
    requires Inv(s, o) && Enabled(s, Release(t))
    ensures Inv(Do(s, Release(t)), o')
  {
    var s' := Do(s, Release(t));
    assert ThreadOk(s, s.threads[t]);
    o' := ReleaseOwned(s, o, t);
    forall v: nat ensures Mapped(s', v) { assert Mapped(s, v); }
    forall p | 0 <= p < |s'.procs| ensures ProcOk(s', s'.procs[p]) { assert ProcOk(s, s.procs[p]); }
    forall u | 0 <= u < |s.threads| ensures ThreadOk(s', s'.threads[u]) {
      assert ThreadOk(s, s.threads[u]);
      if u != t { FrameThread(s, s', s.threads[u]); }
    }
  }

  lemma ReleaseOwned(s: State, o: seq<Owner>, t: nat) returns (o': seq<Owner>)
    requires Owned(s, o) && Enabled(s, Release(t))
    ensures Owned(Do(s, Release(t)), o')
  {
    var s', b := Do(s, Release(t)), s.threads[t].image;
    assert ThreadOwns(o, t, s.threads[t]);
    o' := if b == 0 then o else o[b := Free];
    forall c | 0 < c < |o| ensures BlockOwned(s', o', c) { assert BlockOwned(s, o, c); }
    forall u | 0 <= u < |s'.threads| ensures ThreadOwns(o', u, s'.threads[u]) { assert ThreadOwns(o, u, s.threads[u]); }
  }

  /* The commit. */

  /** What a successful compare-and-swap adds to the log. */
  function Committed(th: Thread): Entry requires th.op.WriteBlock? { Entry(th.op.vidx, th.dst, th.leftover) }

  function Effect(th: Thread): Update requires th.op.WriteBlock? { Update(Offset(th.op), th.op.data) }

  /** At the tail, the destination holds the data laid over the current block. */
  lemma CommitContents(s: State, th: Thread)
    requires Shape(s) && ThreadOk(s, th) && th.pc.Try? && th.op.WriteBlock? && th.cursor == |s.log|
    ensures s.mem[th.dst] == Overlay(Page(Spec(s), th.op.vidx), th.op.lo, th.op.data)
    ensures th.image == Lookup(s.log, th.op.vidx)
  {
    assert Quiet(s, th) && CopiedOk(s, th) && WriteOk(s, th);
    var got, want := s.mem[th.dst], Overlay(Page(Spec(s), th.op.vidx), th.op.lo, th.op.data);
    forall j | 0 <= j < BLOCK_SIZE ensures got[j] == want[j] {
      if Needs(th, j) { assert Data(s, th)[j] == Page(Spec(s), th.op.vidx)[j]; }
    }
  }

  /** The entry sizes the file as the byte array does. A thread at the tail knows the
      size of the file, and its entry leaves out what a write to that file leaves out. */
  lemma CommitSize(s: State, th: Thread)
    requires Shape(s) && ThreadOk(s, th) && th.pc.Try? && th.op.WriteBlock?
    ensures SizeOf(s.log + [Committed(th)]) == |Replay(s.hist + [Effect(th)])|
    ensures th.cursor == |s.log| ==> th.size == |Spec(s)| && Committed(th).leftover == Leftover(End(th.op), |Spec(s)|)
  {
    assert WriteOk(s, th);
    SizeMono(s.log, th.cursor);
    assert s.log[..|s.log|] == s.log;
    SizeAppend(s.log, Committed(th));
    ReplayAppend(s.hist, Effect(th));
    SizeLaw(th.leftover, End(th.op), th.size, SizeOf(s.log));
    assert AlignUp(End(th.op)) == (th.op.vidx + 1) * BLOCK_SIZE;
  }

  /** Another thread's invariant survives a commit: on the same block it is no
      longer quiet, on another block nothing changed. */
  lemma FrameThreadCommit(s: State, s': State, e: Entry, u: Update, lo: nat, th: Thread)
    requires ThreadOk(s, th) && |s.hist| == |s.log|
    requires s'.mem == s.mem && s'.procs == s.procs
    requires s'.log == s.log + [e] && s'.hist == s.hist + [u]
    requires u == Update(e.vidx * BLOCK_SIZE + lo, u.data) && u.data != [] && lo + |u.data| <= BLOCK_SIZE
    ensures ThreadOk(s', th)
  {
    assert th.snap <= |s.log| ==> s'.log[..th.snap] == s.log[..th.snap];
    assert th.cursor <= |s.log| ==> s'.log[..th.cursor] == s.log[..th.cursor];
    if th.pc.Ready? || Active(th) { assert th.op.ReadBlock? ==> CutOk(s', th); }
    if th.pc.Done? { assert s'.hist[..th.pc.at] == s.hist[..th.pc.at]; assert ReadDone(s', th); }
    if Active(th) && Quiet(s', th) {
      FrameQuiet(s, s', e, u, lo, th);
    }
    if Active(th) && th.op.WriteBlock? { assert WriteOk(s, th) && WriteOk(s', th); }
  }

  lemma FrameQuiet(s: State, s': State, e: Entry, u: Update, lo: nat, th: Thread)
    requires s'.mem == s.mem && s'.log == s.log + [e] && s'.hist == s.hist + [u]
    requires u == Update(e.vidx * BLOCK_SIZE + lo, u.data) && u.data != [] && lo + |u.data| <= BLOCK_SIZE
    requires th.cursor <= |s.log| && th.dst < |s.mem| && Quiet(s', th)
    requires Quiet(s, th) ==> th.image == Lookup(s.log, th.op.vidx) && CopiedOk(s, th)
    ensures th.image == Lookup(s'.log, th.op.vidx) && CopiedOk(s', th)
  {
    assert s'.log[|s.log|] == e;
    forall i | th.cursor <= i < |s.log| ensures s.log[i].vidx != th.op.vidx { assert s'.log[i] == s.log[i]; }
    assert Quiet(s, th);
    LookupAppend(s.log, e, th.op.vidx);
    ReplayAppend(s.hist, u);
    WriteOtherPage(Spec(s), e.vidx, lo, u.data, th.op.vidx);
    assert Data(s', th) == Data(s, th);
  }

  lemma CommitOwned(s: State, o: seq<Owner>, t: nat) returns (o': seq<Owner>)
    requires Owned(s, o) && t < |s.threads| && s.threads[t].pc.Try? && s.threads[t].op.WriteBlock?
    requires s.threads[t].cursor == |s.log| && s.threads[t].image == Lookup(s.log, s.threads[t].op.vidx)
    ensures Owned(Do(s, TryCommit(t)), o')
  {
    var s', th := Do(s, TryCommit(t)), s.threads[t];
    var v := th.op.vidx;
    assert ThreadOwns(o, t, th);
    o' := o[th.dst := Live(v)];
    if th.image != 0 { o' := o'[th.image := Pending(t)]; }
    forall w: nat ensures Lookup(s'.log, w) == if w == v then th.dst else Lookup(s.log, w) {
      LookupAppend(s.log, Committed(th), w);
    }
    forall c | 0 < c < |o| ensures BlockOwned(s', o', c) { assert BlockOwned(s, o, c); }
    forall u | 0 <= u < |s'.threads| ensures ThreadOwns(o', u, s'.threads[u]) { assert ThreadOwns(o, u, s.threads[u]); }
  }

  lemma CommitMapped(s: State, s': State, th: Thread, v: nat)
    requires Shape(s) && ThreadOk(s, th) && th.pc.Try? && th.op.WriteBlock? && th.cursor == |s.log|
    requires s'.mem == s.mem && s'.log == s.log + [Committed(th)] && s'.hist == s.hist + [Effect(th)]
    requires Mapped(s, v)
    ensures Mapped(s', v)
  {
    CommitContents(s, th);
    LookupAppend(s.log, Committed(th), v);
    ReplayAppend(s.hist, Effect(th));
    if v == th.op.vidx {
      WriteSamePage(Spec(s), v, th.op.lo, th.op.data);
    } else {
      WriteOtherPage(Spec(s), th.op.vidx, th.op.lo, th.op.data, v);
    }
  }

  lemma FrameProc(s: State, s': State, e: Entry, p: Proc)
    requires ProcOk(s, p) && s'.log == s.log + [e]
    ensures ProcOk(s', p)
  {
    assert s'.log[..p.applied] == s.log[..p.applied];
    assert s'.log[..p.cursor] == s.log[..p.cursor];
  }

  lemma CommitStep(s: State, o: seq<Owner>, t: nat) returns (o': seq<Owner>)
    requires Inv(s, o) && Enabled(s, TryCommit(t)) && s.threads[t].cursor == |s.log|
    ensures Inv(Do(s, TryCommit(t)), o')
  {
    var s', th := Do(s, TryCommit(t)), s.threads[t];
    assert ThreadOk(s, th) && ThreadOwns(o, t, th);
    CommitContents(s, th);
    CommitSize(s, th);
    o' := CommitOwned(s, o, t);
    CommitMappings(s, o, t);
    CommitProcs(s, o, t);
    CommitThreads(s, o, t);
  }

  lemma CommitMappings(s: State, o: seq<Owner>, t: nat)
    requires Inv(s, o) && Enabled(s, TryCommit(t)) && s.threads[t].cursor == |s.log|
    ensures forall v: nat :: Mapped(Do(s, TryCommit(t)), v)
  {
    var s', th := Do(s, TryCommit(t)), s.threads[t];
    assert ThreadOk(s, th) && ThreadOwns(o, t, th);
    forall v: nat ensures Mapped(s', v) { assert Mapped(s, v); CommitMapped(s, s', th, v); }
  }

  lemma CommitProcs(s: State, o: seq<Owner>, t: nat)
    requires Inv(s, o) && Enabled(s, TryCommit(t)) && s.threads[t].cursor == |s.log|
    ensures forall p | 0 <= p < |s.procs| :: ProcOk(Do(s, TryCommit(t)), Do(s, TryCommit(t)).procs[p])
  {
    var s', th := Do(s, TryCommit(t)), s.threads[t];
    assert ThreadOk(s, th) && ThreadOwns(o, t, th);
    CommitContents(s, th);
    CommitSize(s, th);
    forall p | 0 <= p < |s'.procs| ensures ProcOk(s', s'.procs[p]) { FrameProc(s, s', Committed(th), s.procs[p]); }
  }

  lemma CommitThreads(s: State, o: seq<Owner>, t: nat)
    requires Inv(s, o) && Enabled(s, TryCommit(t)) && s.threads[t].cursor == |s.log|
    ensures forall u | 0 <= u < |s.threads| :: ThreadOk(Do(s, TryCommit(t)), Do(s, TryCommit(t)).threads[u])
  {
    var s', th := Do(s, TryCommit(t)), s.threads[t];
    assert ThreadOk(s, th) && ThreadOwns(o, t, th);
    CommitContents(s, th);
    CommitSize(s, th);
    forall u | 0 <= u < |s.threads| ensures ThreadOk(s', s'.threads[u]) {
      assert ThreadOk(s, s.threads[u]);
      if u != t { FrameThreadCommit(s, s', Committed(th), Effect(th), th.op.lo, s.threads[u]); }
    }
  }

  lemma TryCommitStep(s: State, o: seq<Owner>, t: nat) returns (o': seq<Owner>)
    requires Inv(s, o) && Enabled(s, TryCommit(t))
    ensures Inv(Do(s, TryCommit(t)), o')
  {
    if s.threads[t].cursor == |s.log| {
      o' := CommitStep(s, o, t);
    } else {
      o' := o;
      SameDataStep(s, Do(s, TryCommit(t)), o, t);
    }
  }

  /* The block tables. */

  lemma ApplyProc(s: State, p: Proc)
    requires ProcOk(s, p) && p.applied < |s.log|
    ensures ProcOk(s, DoApply(p, s.log[p.applied]))
  {
    var e := s.log[p.applied];
    var p' := DoApply(p, e);
    assert s.log[..p'.applied] == s.log[..p.applied] + [e];
    SizeAppend(s.log[..p.applied], e);
    forall v: nat ensures Get(p'.table, v) == Lookup(s.log[..p'.applied], v) {
      LookupAppend(s.log[..p.applied], e, v);
      assert Get(p.table, v) == Lookup(s.log[..p.applied], v);
    }
  }

  lemma TableStep(s: State, s': State, o: seq<Owner>, p: nat)
    requires Inv(s, o) && p < |s.procs| && |s'.procs| == |s.procs|
    requires s' == s.(procs := s.procs[p := s'.procs[p]])
    requires ProcOk(s, s'.procs[p]) && s.procs[p].applied <= s'.procs[p].applied
    ensures Inv(s', o)
  {
    forall b | 0 < b < |o| ensures BlockOwned(s', o, b) { assert BlockOwned(s, o, b); }
    forall v: nat ensures Mapped(s', v) { assert Mapped(s, v); }
    forall q | 0 <= q < |s'.procs| ensures ProcOk(s', s'.procs[q]) { assert ProcOk(s, s.procs[q]); }
    forall u | 0 <= u < |s.threads| ensures ThreadOk(s', s'.threads[u]) {
      assert ThreadOk(s, s.threads[u]);
      FrameThread(s, s', s.threads[u]);
    }
  }

  /* Every run. */

  lemma InitInv(s: State) returns (o: seq<Owner>)
    requires Init(s)
    ensures Inv(s, o)
  {
    o := seq(|s.mem|, b => if b == 0 then Reserved else Free);
    forall b | 0 < b < |o| ensures BlockOwned(s, o, b) { }
    forall v: nat ensures Mapped(s, v) { PageOfEmpty(v); }
    forall p | 0 <= p < |s.procs| ensures ProcOk(s, s.procs[p]) { assert s.log[..0] == []; }
  }

  lemma StepInv(s: State, o: seq<Owner>, a: Action) returns (o': seq<Owner>)
    requires Inv(s, o) && Enabled(s, a)
    ensures Inv(Do(s, a), o')
  {
    o' := o;
    match a
    case Begin(t, op, b) => o' := BeginStep(s, o, t, op, b);
    case Snapshot(t) => SnapshotStep(s, o, t);
    case Prepare(t) => PrepareStep(s, o, t);
    case CopyByte(t) => CopyByteStep(s, o, t);
    case CopyEnd(t) => CopyEndStep(s, o, t);
    case TryCommit(t) => o' := TryCommitStep(s, o, t);
    case Validate(t) => ValidateStep(s, o, t);
    case ScanEntry(t) => ScanEntryStep(s, o, t);
    case ScanEnd(t) => ScanEndStep(s, o, t);
    case Release(t) => o' := ReleaseStep(s, o, t);
    case Finish(t) => FinishStep(s, o, t);
    case ApplyEntry(p) =>
      assert ProcOk(s, s.procs[p]);
      ApplyProc(s, s.procs[p]);
      TableStep(s, Do(s, a), o, p);
    case Publish(p) =>
      assert ProcOk(s, s.procs[p]);
      TableStep(s, Do(s, a), o, p);
  }

  lemma {:induction false} RunInv(run: seq<State>, i: nat) returns (o: seq<Owner>)
    requires Run(run) && i < |run|
    ensures Inv(run[i], o)
  {
    if i == 0 {
      o := InitInv(run[0]);
    } else {
      var o0 := RunInv(run, i - 1);
      assert Next(run[i - 1], run[i]);
      var a :| Enabled(run[i - 1], a) && run[i] == Do(run[i - 1], a);
      o := StepInv(run[i - 1], o0, a);
    }
  }

  /* Main results. */

  /** What a reader of the log finds at byte `p` of the file. */
  function Peek(s: State, p: nat): Byte
  {
    var b := Lookup(s.log, p / BLOCK_SIZE);
    if b < |s.mem| then s.mem[b][p % BLOCK_SIZE] else 0
  }

  function Contents(s: State): File { seq(SizeOf(s.log), p requires p >= 0 => Peek(s, p)) }

  /** Serializability: in every reachable state of every run, the file that the
      log describes, contents and length, is the one that the committed writes
      produce one after the other on a plain byte array. */
  lemma Serializability(run: seq<State>, i: nat)
    requires Run(run) && i < |run|
    ensures Contents(run[i]) == Replay(run[i].hist)
  {
    var o := RunInv(run, i);
    var s := run[i];
    var got, want := Contents(s), Replay(s.hist);
    forall p | 0 <= p < |want| ensures got[p] == want[p] {
      assert Mapped(s, p / BLOCK_SIZE);
      assert Page(want, p / BLOCK_SIZE)[p % BLOCK_SIZE] == At(want, p / BLOCK_SIZE * BLOCK_SIZE + p % BLOCK_SIZE);
    }
  }

  /** The bytes of a finished read are those that the file held after the first
      `at` commits, a point not before the read began; their number was cut at the
      end of the file as it was at the snapshot. */
  lemma ReadBytes(run: seq<State>, i: nat, t: nat)
    requires Run(run) && i < |run| && t < |run[i].threads| && run[i].threads[t].pc.Done?
    ensures var s, th := run[i], run[i].threads[t];
            && th.op.ReadBlock? && th.start <= th.snap <= th.pc.at <= |s.hist|
            && th.count == |Read(Replay(s.hist[..th.snap]), Offset(th.op), th.op.count)|
            && th.op.lo + th.count <= BLOCK_SIZE
            && th.buf[th.op.lo..th.op.lo + th.count] == Read(Replay(s.hist[..th.pc.at]), Offset(th.op), th.count)
  {
    var o := RunInv(run, i);
    var s, th := run[i], run[i].threads[t];
    assert ThreadOk(s, th);
    RunSizes(run, i, th.snap);
    RunSizes(run, i, th.pc.at);
    ReadResult(s, th);
  }

  /** So a finished read is what reading the file at that point gives exactly if it
      was not cut at the snapshot, or the file has not grown since. */
  lemma AtomicIff(run: seq<State>, i: nat, t: nat)
    requires Run(run) && i < |run| && t < |run[i].threads| && run[i].threads[t].pc.Done?
    ensures var s, th := run[i], run[i].threads[t];
            && th.op.ReadBlock? && th.snap <= th.pc.at <= |s.hist| && th.op.lo + th.count <= BLOCK_SIZE
            && var got := th.buf[th.op.lo..th.op.lo + th.count];
               (got == Read(Replay(s.hist[..th.pc.at]), Offset(th.op), th.op.count) <==>
                || Offset(th.op) + th.op.count <= |Replay(s.hist[..th.snap])|
                || |Replay(s.hist[..th.snap])| == |Replay(s.hist[..th.pc.at])|)
  {
    ReadBytes(run, i, t);
    var o := RunInv(run, i);
    var s, th := run[i], run[i].threads[t];
    assert ThreadOk(s, th);
    RunSizes(run, i, th.snap);
    RunSizes(run, i, th.pc.at);
    SizeMono(s.log[..th.pc.at], th.snap);
    assert s.log[..th.pc.at][..th.snap] == s.log[..th.snap];
  }

  lemma ReadResult(s: State, th: Thread)
    requires th.pc.Done? && ReadDone(s, th) && OpOk(th.op)
    requires SizeOf(s.log[..th.snap]) == |Replay(s.hist[..th.snap])|
        && SizeOf(s.log[..th.pc.at]) == |Replay(s.hist[..th.pc.at])|
    ensures th.count == |Read(Replay(s.hist[..th.snap]), Offset(th.op), th.op.count)|
    ensures th.op.lo + th.count <= BLOCK_SIZE
    ensures th.buf[th.op.lo..th.op.lo + th.count] == Read(Replay(s.hist[..th.pc.at]), Offset(th.op), th.count)
  {
    if th.count > 0 {
      assert CutOk(s, th);
      SizeMono(s.log[..th.pc.at], th.snap);
      assert s.log[..th.pc.at][..th.snap] == s.log[..th.snap];
      ReadIsSlice(Replay(s.hist[..th.pc.at]), th);
    }
  }

  lemma ReadIsSlice(f: File, th: Thread)
    requires th.op.ReadBlock? && th.count > 0 && th.op.lo + th.count <= BLOCK_SIZE && Offset(th.op) + th.count <= |f|
    requires forall j | th.op.lo <= j < th.op.lo + th.count :: th.buf[j] == Page(f, th.op.vidx)[j]
    ensures th.buf[th.op.lo..th.op.lo + th.count] == Read(f, Offset(th.op), th.count)
  {
    ReadPage(f, th.op.vidx, th.op.lo, th.count);
  }

  /** The length that any prefix of the log gives is that of the prefix of the
      writes. */
  lemma {:induction false} RunSizes(run: seq<State>, i: nat, k: nat)
    requires Run(run) && i < |run| && k <= |run[i].log|
    ensures k <= |run[i].hist| && SizeOf(run[i].log[..k]) == |Replay(run[i].hist[..k])|
  {
    var o := RunInv(run, i);
    assert run[i].log[..|run[i].log|] == run[i].log && run[i].hist[..|run[i].hist|] == run[i].hist;
    if k < |run[i].log| {
      assert i > 0;
      var o0 := RunInv(run, i - 1);
      assert Next(run[i - 1], run[i]);
      var a :| Enabled(run[i - 1], a) && run[i] == Do(run[i - 1], a);
      LogGrows(run[i - 1], a);
      RunSizes(run, i - 1, k);
      assert run[i].log[..k] == run[i - 1].log[..k] && run[i].hist[..k] == run[i - 1].hist[..k];
    }
  }

  /** The log and its history only grow, by at most one entry a step. */
  lemma LogGrows(s: State, a: Action)
    requires Enabled(s, a)
    ensures Do(s, a).log == s.log || (|Do(s, a).log| == |s.log| + 1 && s.log <= Do(s, a).log)
    ensures s.hist <= Do(s, a).hist
  {
  }

  /** Whether `w` answers for block `b` in state `s`. */
  ghost predicate Claims(s: State, b: nat, w: Owner)
  {
    match w
    case Reserved => false
    case Free => b in s.free
    case Dst(t) => t < |s.threads| && HasDst(s.threads[t]) && s.threads[t].dst == b
    case Live(v) => Lookup(s.log, v) == b
    case Pending(t) => t < |s.threads| && HasPending(s.threads[t]) && s.threads[t].image == b
  }

  /** Exactly-once recycling: at all times every block is free, or the private
      destination of one thread, or mapped at one place of the file, or waiting
      to be freed by the one thread that superseded it - and only one of these.
      So no block leaks, none is freed twice and none is handed out while live. */
  lemma ExactlyOneOwner(run: seq<State>, i: nat, b: nat)
    requires Run(run) && i < |run| && 0 < b < |run[i].mem|
    ensures exists w :: Claims(run[i], b, w)
    ensures forall w1, w2 :: Claims(run[i], b, w1) && Claims(run[i], b, w2) ==> w1 == w2
  {
    var o := RunInv(run, i);
    assert BlockOwned(run[i], o, b);
    assert Claims(run[i], b, o[b]);
    forall w | Claims(run[i], b, w) ensures w == o[b] {
      match w
      case Dst(t) => assert ThreadOwns(o, t, run[i].threads[t]);
      case Pending(t) => assert ThreadOwns(o, t, run[i].threads[t]);
      case _ =>
    }
  }
}
