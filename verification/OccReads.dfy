/** A read in `Occ` that no moment of the file explains: it is cut at the end of the
    file before a write and then returns the bytes of that write. */
module OccReads {
  import opened Layout
  import opened ByteFile
  import opened Occ
  import opened OccSafety

  ghost predicate Reachable(s: State)
  {
    exists run: seq<State> :: Run(run) && run[|run| - 1] == s
  }

  lemma Step(s: State, a: Action)
    requires Reachable(s) && Enabled(s, a)
    ensures Reachable(Do(s, a))
  {
    var run: seq<State> :| Run(run) && run[|run| - 1] == s;
    var run' := run + [Do(s, a)];
    forall i, k | 0 <= i && k == i + 1 && k < |run'| ensures Next(run'[i], run'[k]) {
      if k < |run| { assert Next(run[i], run[k]); } else { assert run'[i] == s; }
    }
    assert run'[|run'| - 1] == Do(s, a);
  }

  lemma ReachableInv(s: State) returns (o: seq<Owner>)
    requires Reachable(s)
    ensures Inv(s, o)
  {
    var run: seq<State> :| Run(run) && run[|run| - 1] == s;
    o := RunInv(run, |run| - 1);
  }

  /** Only thread `t` and the contents of blocks differ. */
  ghost predicate Private(s: State, s': State, t: nat)
  {
    && t < |s.threads| == |s'.threads| && |s'.mem| == |s.mem|
    && s' == s.(mem := s'.mem, threads := s.threads[t := s'.threads[t]])
  }

  lemma CanCopy(s: State, t: nat)
    requires Reachable(s) && t < |s.threads| && s.threads[t].pc.Copy?
    ensures s.threads[t].pc.next <= BLOCK_SIZE && s.threads[t].image < |s.mem| && s.threads[t].dst < |s.mem|
  {
    var o := ReachableInv(s);
    assert ThreadOk(s, s.threads[t]);
  }

  /** A thread copies its block to the end. */
  lemma {:induction false} CopyAll(s: State, t: nat) returns (s': State)
    requires Reachable(s) && t < |s.threads| && s.threads[t].pc.Copy?
    ensures Reachable(s') && Private(s, s', t)
    ensures s'.threads[t] == s.threads[t].(pc := Try, buf := s'.threads[t].buf)
    decreases if s.threads[t].pc.next <= BLOCK_SIZE then BLOCK_SIZE - s.threads[t].pc.next else 0
  {
    CanCopy(s, t);
    if s.threads[t].pc.next == BLOCK_SIZE {
      Step(s, CopyEnd(t));
      s' := Do(s, CopyEnd(t));
    } else {
      Step(s, CopyByte(t));
      s' := CopyAll(Do(s, CopyByte(t)), t);
    }
  }

  /** Process 0 has replayed the log and published that. */
  predicate UpToDate(s: State) { |s.procs| > 0 && s.procs[0].applied == s.procs[0].cursor == |s.log| }

  predicate Resting(s: State, t: nat) { t < |s.threads| && s.threads[t].pc.Idle? && s.threads[t].proc == 0 }

  /** A write to the start of the file, up to the copy ... */
  lemma StartWrite(s: State, t: nat, data: seq<Byte>, b: nat) returns (s': State)
    requires Reachable(s) && UpToDate(s) && Resting(s, t) && b in s.free && 0 < |data| <= BLOCK_SIZE
    ensures Reachable(s') && t < |s.threads| == |s'.threads| && s'.threads[t].pc.Copy? && s'.threads[t].proc == 0
    ensures s'.threads[t].op == WriteBlock(0, 0, data) && s'.threads[t].cursor == |s.log|
    ensures s' == s.(mem := s'.mem, free := s.free - {b}, threads := s.threads[t := s'.threads[t]])
  {
    var op := WriteBlock(0, 0, data);
    Step(s, Begin(t, op, b));
    var s1 := Do(s, Begin(t, op, b));
    Step(s1, Snapshot(t));
    var s2 := Do(s1, Snapshot(t));
    HasRoom(s2, t);
    Step(s2, Prepare(t));
    s' := Do(s2, Prepare(t));
  }

  lemma HasRoom(s: State, t: nat)
    requires Reachable(s) && t < |s.threads| && s.threads[t].pc.Ready?
    ensures OpOk(s.threads[t].op) && s.threads[t].proc < |s.procs| && s.threads[t].dst < |s.mem|
  {
    var o := ReachableInv(s);
    assert ThreadOk(s, s.threads[t]);
  }

  /** ... and from there on, if nobody else has committed. */
  lemma EndWrite(s: State, t: nat) returns (s': State)
    requires Reachable(s) && t < |s.threads| && s.threads[t].pc.Try? && s.threads[t].op.WriteBlock?
    requires s.threads[t].cursor == |s.log|
    ensures Reachable(s') && |s'.threads| == |s.threads| && s'.threads[t].pc.Idle? && s.free <= s'.free
    ensures s'.threads[t].proc == s.threads[t].proc && s'.procs == s.procs
    ensures forall u | 0 <= u < |s.threads| && u != t :: s'.threads[u] == s.threads[u]
    ensures |s'.log| == |s.log| + 1 && s'.log[|s.log|].vidx == s.threads[t].op.vidx
    ensures s'.hist == s.hist + [Update(Offset(s.threads[t].op), s.threads[t].op.data)]
  {
    Step(s, TryCommit(t));
    var s1 := Do(s, TryCommit(t));
    Step(s1, Release(t));
    s' := Do(s1, Release(t));
  }

  /** One write to the start of the file, alone. */
  lemma WriteOnce(s: State, t: nat, data: seq<Byte>, b: nat) returns (s': State)
    requires Reachable(s) && UpToDate(s) && Resting(s, t) && b in s.free && 0 < |data| <= BLOCK_SIZE
    ensures Reachable(s') && Resting(s', t) && |s'.threads| == |s.threads| && s'.procs == s.procs
    ensures forall u | 0 <= u < |s.threads| && u != t :: s'.threads[u] == s.threads[u]
    ensures |s'.log| == |s.log| + 1 && s'.log[|s.log|].vidx == 0 && s.free - {b} <= s'.free
    ensures s'.hist == s.hist + [Update(0, data)]
  {
    var s1 := StartWrite(s, t, data, b);
    var s2 := CopyAll(s1, t);
    s' := EndWrite(s2, t);
  }

  /** The table follows by one entry. */
  lemma Follow(s: State) returns (s': State)
    requires Reachable(s) && |s.procs| > 0 && s.procs[0].applied + 1 == |s.log|
    ensures Reachable(s') && UpToDate(s') && s' == s.(procs := s'.procs) && |s'.procs| == |s.procs|
  {
    Step(s, ApplyEntry(0));
    var s1 := Do(s, ApplyEntry(0));
    Step(s1, Publish(0));
    s' := Do(s1, Publish(0));
  }

  /** A reader takes its snapshot: its length is cut at the end of the file. */
  lemma StartRead(s: State, t: nat, n: nat) returns (s': State)
    requires Reachable(s) && UpToDate(s) && Resting(s, t) && 0 < n <= BLOCK_SIZE && SizeOf(s.log) > 0
    ensures Reachable(s') && Private(s, s', t) && s'.mem == s.mem && s'.threads[t].pc.Ready?
    ensures s'.threads[t].op == ReadBlock(0, 0, n) && s'.threads[t].proc == 0
    ensures s'.threads[t].cursor == |s.log| && s'.threads[t].count == Min(n, SizeOf(s.log))
  {
    var op := ReadBlock(0, 0, n);
    Step(s, Begin(t, op, 0));
    var s1 := Do(s, Begin(t, op, 0));
    var o := ReachableInv(s1);
    assert ProcOk(s1, s1.procs[0]) && s1.log[..|s1.log|] == s1.log;
    Step(s1, Snapshot(t));
    s' := Do(s1, Snapshot(t));
  }

  /** The read goes on after one more write: it copies, notices the conflict, copies
      again, and is done. */
  lemma FinishRead(s: State, t: nat) returns (s': State)
    requires Reachable(s) && t < |s.threads| && s.threads[t].pc.Ready? && s.threads[t].op.ReadBlock?
    requires s.threads[t].cursor + 1 == |s.log| && s.log[|s.log| - 1].vidx == s.threads[t].op.vidx
    ensures Reachable(s') && |s'.threads| == |s.threads| && s'.threads[t].pc == Done(|s.log|)
    ensures s'.hist == s.hist && s'.threads[t].op == s.threads[t].op && s'.threads[t].count == s.threads[t].count
  {
    var o := ReachableInv(s);
    assert ThreadOk(s, s.threads[t]);
    Step(s, Prepare(t));
    var s1 := CopyAll(Do(s, Prepare(t)), t);
    Step(s1, Validate(t));
    var s2 := Do(s1, Validate(t));
    Step(s2, ScanEntry(t));
    var s3 := Do(s2, ScanEntry(t));
    Step(s3, ScanEnd(t));
    var s4 := CopyAll(Do(s3, ScanEnd(t)), t);
    Step(s4, Validate(t));
    s' := Do(s4, Validate(t));
  }

  /** The run: a write of `before`, then a read of `n` bytes that takes its snapshot
      before and ends after the write of `after`. */
  lemma Race(s: State, before: seq<Byte>, after: seq<Byte>, n: nat) returns (s': State)
    requires Reachable(s) && UpToDate(s) && s.log == [] && s.hist == [] && |s.threads| == 2 && {1, 2} <= s.free
    requires Resting(s, 0) && Resting(s, 1)
    requires 0 < |before| <= BLOCK_SIZE && 0 < |after| <= BLOCK_SIZE && 0 < n <= BLOCK_SIZE
    ensures Reachable(s') && |s'.threads| == 2 && s'.threads[1].pc == Done(2)
    ensures s'.threads[1].op == ReadBlock(0, 0, n) && s'.threads[1].count == Min(n, |before|)
    ensures s'.hist == [Update(0, before), Update(0, after)]
  {
    var s1 := RaceBegins(s, before, n);
    var s2 := WriteOnce(s1, 0, after, 2);
    s' := FinishRead(s2, 1);
  }

  lemma RaceBegins(s: State, before: seq<Byte>, n: nat) returns (s': State)
    requires Reachable(s) && UpToDate(s) && s.log == [] && s.hist == [] && |s.threads| == 2 && {1, 2} <= s.free
    requires Resting(s, 0) && Resting(s, 1) && 0 < |before| <= BLOCK_SIZE && 0 < n <= BLOCK_SIZE
    ensures Reachable(s') && UpToDate(s') && |s'.log| == 1 && s'.hist == [Update(0, before)] && |s'.threads| == 2
    ensures 2 in s'.free && Resting(s', 0) && s'.threads[1].pc.Ready? && s'.threads[1].op == ReadBlock(0, 0, n)
    ensures s'.threads[1].cursor == 1 && s'.threads[1].count == Min(n, |before|)
  {
    var s1 := WriteOnce(s, 0, before, 1);
    var s2 := Follow(s1);
    SizeIs(s2, before);
    s' := StartRead(s2, 1, n);
  }

  lemma SizeIs(s: State, data: seq<Byte>)
    requires Reachable(s) && s.hist == [Update(0, data)]
    ensures SizeOf(s.log) == |data|
  {
    var o := ReachableInv(s);
    OneWrite(data);
  }

  lemma OneWrite(data: seq<Byte>)
    ensures Replay([Update(0, data)]) == data
  {
    var us := [Update(0, data)];
    assert us[..0] == [];
    assert Replay([]) == [];
  }

  lemma TwoWrites(before: seq<Byte>, after: seq<Byte>)
    requires |before| < |after|
    ensures Replay([Update(0, before), Update(0, after)]) == after
  {
    var us := [Update(0, before), Update(0, after)];
    assert us[..1] == [Update(0, before)];
    OneWrite(before);
  }

  lemma InitIsReady(s: State)
    requires Init(s) && |s.threads| == 2 && |s.procs| == 1 && |s.mem| == 3
    ensures Reachable(s) && UpToDate(s) && s.log == [] && s.hist == [] && {1, 2} <= s.free
    ensures Resting(s, 0) && Resting(s, 1)
  {
    assert Run([s]) && [s][|[s]| - 1] == s;
  }

  /** What the read has returned, by the theorem about reads. */
  lemma Returned(s: State, after: seq<Byte>)
    requires Reachable(s) && |s.threads| == 2 && s.threads[1].pc == Done(2) && |s.hist| == 2 && Replay(s.hist) == after
    requires s.threads[1].op.ReadBlock? && s.threads[1].op.vidx == s.threads[1].op.lo == 0
    requires s.threads[1].count < |after|
    ensures s.threads[1].count <= BLOCK_SIZE && s.threads[1].buf[..s.threads[1].count] == after[..s.threads[1].count]
  {
    var run: seq<State> :| Run(run) && run[|run| - 1] == s;
    ReadBytes(run, |run| - 1, 1);
    assert s.hist[..2] == s.hist;
  }

  /** A file of the bytes `before`; a read of more bytes than that races a longer
      write that starts with another byte. It returns as many bytes as there were,
      but new ones: at no moment would a read of the file have returned that. */
  lemma TornRead(s: State, before: seq<Byte>, after: seq<Byte>, n: nat) returns (s': State)
    requires Init(s) && |s.threads| == 2 && |s.procs| == 1 && |s.mem| == 3
    requires 0 < |before| < |after| <= BLOCK_SIZE && |before| < n <= BLOCK_SIZE && before[0] != after[0]
    ensures Reachable(s') && |s'.threads| == 2 && s'.threads[1].pc.Done? && s'.threads[1].op == ReadBlock(0, 0, n)
    ensures s'.threads[1].count == |before| && s'.threads[1].buf[..|before|] == after[..|before|]
    ensures forall k | 0 <= k <= |s'.hist| :: Read(Replay(s'.hist[..k]), 0, n) != s'.threads[1].buf[..|before|]
  {
    InitIsReady(s);
    s' := Race(s, before, after, n);
    TwoWrites(before, after);
    Returned(s', after);
    NeverHeld(s'.hist, before, after, n);
  }

  lemma NeverHeld(hist: seq<Update>, before: seq<Byte>, after: seq<Byte>, n: nat)
    requires hist == [Update(0, before), Update(0, after)]
    requires 0 < |before| < |after| && |before| < n && before[0] != after[0]
    ensures forall k | 0 <= k <= |hist| :: Read(Replay(hist[..k]), 0, n) != after[..|before|]
  {
    OneWrite(before);
    TwoWrites(before, after);
    assert hist[..0] == [] && hist[..1] == [Update(0, before)] && hist[..2] == hist;
    assert Read(before, 0, n)[0] != after[..|before|][0];
  }
}
