/** What a finished operation of `Occ` has done, in terms of the call that began it:
    a write has taken effect exactly once, and a read has seen everything that was
    committed before it began. */
module OccTrace {
  import opened Layout
  import opened ByteFile
  import opened Occ
  import opened OccSafety
  import opened OccProgress

  predicate InFlight(s: State, t: nat) { t < |s.threads| && !s.threads[t].pc.Idle? }

  predicate AtRest(s: State, t: nat) { t < |s.threads| && s.threads[t].pc.Idle? }

  predicate Begins(a: Action, t: nat, op: Op) { a.Begin? && a.t == t && a.op == op }

  /** Step `j` begins `op`, and thread `t` begins nothing else before step `i`. */
  ghost predicate Began(acts: seq<Action>, t: nat, op: Op, j: nat, i: nat)
  {
    j < i <= |acts| && Begins(acts[j], t, op) && forall k | j < k < i :: !(acts[k].Begin? && acts[k].t == t)
  }

  /** The operation that began at step `j` is not over in state `i`. */
  ghost predicate Flying(run: seq<State>, acts: seq<Action>, t: nat, op: Op, j: nat, i: nat)
  {
    j < i <= |acts| < |run| && Begins(acts[j], t, op) && forall k | j < k <= i :: InFlight(run[k], t)
  }

  /** It ends with step `m - 1`. */
  ghost predicate Finished(run: seq<State>, acts: seq<Action>, t: nat, op: Op, j: nat, m: nat)
  {
    && j < m <= |acts| < |run| && Begins(acts[j], t, op) && AtRest(run[m], t)
    && forall k | j < k < m :: InFlight(run[k], t)
  }

  /** The thread is in operation `op`, which began when the log had `n` entries. */
  predicate InOp(th: Thread, op: Op, n: nat)
  {
    th.op == op && th.start == n && (!th.pc.Begun? ==> n <= th.snap)
  }

  lemma Starts(run: seq<State>, acts: seq<Action>, t: nat, op: Op, j: nat)
    requires Trace(run, acts) && j < |acts| && Begins(acts[j], t, op)
    ensures InFlight(run[j + 1], t) && run[j + 1].threads[t].pc.Begun? && InOp(run[j + 1].threads[t], op, |run[j].log|)
    ensures run[j + 1].hist == run[j].hist
  {
    assert StepAt(run, acts, j);
  }

  lemma StepInOp(s: State, a: Action, t: nat, op: Op, n: nat)
    requires Enabled(s, a) && InFlight(s, t) && InOp(s.threads[t], op, n)
    ensures t < |Do(s, a).threads| && InOp(Do(s, a).threads[t], op, n)
  {
    if !Own(a, t) { OtherThread(s, a, t); }
  }

  lemma RestsOn(s: State, a: Action, t: nat)
    requires Enabled(s, a) && AtRest(s, t) && !(a.Begin? && a.t == t)
    ensures AtRest(Do(s, a), t)
  {
    if !Own(a, t) { OtherThread(s, a, t); }
  }

  ghost predicate InOpOrAtRest(s: State, t: nat, op: Op, n: nat)
  {
    AtRest(s, t) || (InFlight(s, t) && InOp(s.threads[t], op, n))
  }

  lemma StepInOpOrAtRest(run: seq<State>, acts: seq<Action>, t: nat, op: Op, n: nat, i: nat)
    requires Trace(run, acts) && i < |acts| && !(acts[i].Begin? && acts[i].t == t) && InOpOrAtRest(run[i], t, op, n)
    ensures InOpOrAtRest(run[i + 1], t, op, n)
  {
    assert StepAt(run, acts, i);
    if AtRest(run[i], t) { RestsOn(run[i], acts[i], t); } else { StepInOp(run[i], acts[i], t, op, n); }
  }

  /** As long as it begins nothing else, it is in `op` or at rest. */
  lemma {:induction false} StaysInOp(run: seq<State>, acts: seq<Action>, t: nat, op: Op, j: nat, i: nat)
    requires Trace(run, acts) && Began(acts, t, op, j, i)
    ensures InOpOrAtRest(run[i], t, op, |run[j].log|)
  {
    if i - 1 == j {
      Starts(run, acts, t, op, j);
    } else {
      StaysInOp(run, acts, t, op, j, i - 1);
      StepInOpOrAtRest(run, acts, t, op, |run[j].log|, i - 1);
    }
  }

  lemma FlightIsOne(run: seq<State>, acts: seq<Action>, t: nat, op: Op, j: nat, i: nat)
    requires Trace(run, acts) && Flying(run, acts, t, op, j, i)
    ensures Began(acts, t, op, j, i) && InOp(run[i].threads[t], op, |run[j].log|)
  {
    forall k | j < k < i ensures !(acts[k].Begin? && acts[k].t == t) {
      assert InFlight(run[k], t) && StepAt(run, acts, k);
    }
    StaysInOp(run, acts, t, op, j, i);
  }

  lemma FliesFirst(run: seq<State>, acts: seq<Action>, t: nat, op: Op, j: nat, m: nat)
    requires Trace(run, acts) && Finished(run, acts, t, op, j, m)
    ensures j < m - 1 && Flying(run, acts, t, op, j, m - 1)
  {
    Starts(run, acts, t, op, j);
  }

  /** Every operation in flight has begun. */
  lemma {:induction false} HasBegun(run: seq<State>, acts: seq<Action>, t: nat, i: nat) returns (op: Op, j: nat)
    requires Trace(run, acts) && i < |run| && InFlight(run[i], t)
    ensures Flying(run, acts, t, op, j, i)
  {
    var a := acts[i - 1];
    assert StepAt(run, acts, i - 1);
    if a.Begin? && a.t == t {
      op, j := a.op, i - 1;
    } else {
      if !Own(a, t) { OtherThread(run[i - 1], a, t); }
      assert InFlight(run[i - 1], t) by { if AtRest(run[i - 1], t) { RestsOn(run[i - 1], a, t); } }
      op, j := HasBegun(run, acts, t, i - 1);
    }
  }

  /* Writes. */

  /** The write that `op` asks for. */
  function Asked(op: Op): Update requires op.WriteBlock? { Update(op.vidx * BLOCK_SIZE + op.lo, op.data) }

  /** Step `k` of thread `t` adds `u` to the writes behind the log. */
  ghost predicate TakesEffect(run: seq<State>, acts: seq<Action>, t: nat, u: Update, k: nat)
  {
    k < |acts| < |run| && acts[k] == TryCommit(t) && run[k + 1].hist == run[k].hist + [u]
  }

  /** None of its steps from `j` to `i - 1`, other than `k`, adds anything. */
  ghost predicate NothingElse(run: seq<State>, acts: seq<Action>, t: nat, j: nat, i: nat, k: int)
  {
    i <= |acts| < |run| && forall n | j <= n < i && n != k && Own(acts[n], t) :: run[n + 1].hist == run[n].hist
  }

  /** A step of the thread adds the write exactly if it goes to `Recycle`, and ends the
      operation exactly if it comes from there. */
  lemma CommitsOrNot(s: State, a: Action, t: nat, op: Op, n: nat)
    requires Enabled(s, a) && InFlight(s, t) && InOp(s.threads[t], op, n) && op.WriteBlock? && Own(a, t)
    requires ThreadOk(s, s.threads[t])
    ensures t < |Do(s, a).threads|
    ensures var pc, pc' := s.threads[t].pc, Do(s, a).threads[t].pc;
            && (if pc'.Recycle? then a == TryCommit(t) && Do(s, a).hist == s.hist + [Asked(op)]
                else Do(s, a).hist == s.hist)
            && pc.Recycle? == pc'.Idle?
  {
  }

  /** The same for step `n` of a run. */
  ghost predicate StepOk(run: seq<State>, acts: seq<Action>, t: nat, u: Update, n: nat)
  {
    && n < |acts| < |run| && t < |run[n].threads| && t < |run[n + 1].threads|
    && var pc, pc' := run[n].threads[t].pc, run[n + 1].threads[t].pc;
       if Own(acts[n], t)
       then && (if pc'.Recycle? then TakesEffect(run, acts, t, u, n) else run[n + 1].hist == run[n].hist)
            && pc.Recycle? == pc'.Idle?
       else pc' == pc
  }

  lemma WriteStep(run: seq<State>, acts: seq<Action>, t: nat, op: Op, j: nat, n: nat)
    requires Trace(run, acts) && op.WriteBlock? && Flying(run, acts, t, op, j, n) && n < |acts|
    ensures StepOk(run, acts, t, Asked(op), n)
  {
    var s, a := run[n], acts[n];
    assert StepAt(run, acts, n) && InFlight(s, t);
    if Own(a, t) {
      FlightIsOne(run, acts, t, op, j, n);
      var o := RunInv(run, n);
      assert ThreadOk(s, s.threads[t]);
      CommitsOrNot(s, a, t, op, |run[j].log|);
    } else {
      OtherThread(s, a, t);
    }
  }

  /** Up to state `i` the write has taken effect once if it is in `Recycle`, and not
      otherwise. */
  lemma {:induction false} EffectSoFar(run: seq<State>, acts: seq<Action>, t: nat, u: Update, j: nat, i: nat)
    returns (k: int)
    requires j < i <= |acts| < |run| && (forall n | j < n < i :: StepOk(run, acts, t, u, n))
    requires (forall n | j < n <= i :: InFlight(run[n], t)) && InFlight(run[j + 1], t)
    requires run[j + 1].threads[t].pc.Begun? && run[j + 1].hist == run[j].hist
    ensures InFlight(run[i], t) && NothingElse(run, acts, t, j, i, k)
    ensures if run[i].threads[t].pc.Recycle? then j < k < i && TakesEffect(run, acts, t, u, k) else k == -1
  {
    k := -1;
    if i - 1 > j {
      k := EffectSoFar(run, acts, t, u, j, i - 1);
      assert StepOk(run, acts, t, u, i - 1);
      if Own(acts[i - 1], t) && run[i].threads[t].pc.Recycle? { k := i - 1; }
    }
  }

  lemma WriteSoFar(run: seq<State>, acts: seq<Action>, t: nat, op: Op, j: nat, i: nat) returns (k: int)
    requires Trace(run, acts) && op.WriteBlock? && Flying(run, acts, t, op, j, i)
    ensures NothingElse(run, acts, t, j, i, k) && InFlight(run[i], t)
    ensures if run[i].threads[t].pc.Recycle? then j < k < i && TakesEffect(run, acts, t, Asked(op), k) else k == -1
  {
    Starts(run, acts, t, op, j);
    forall n | j < n < i ensures StepOk(run, acts, t, Asked(op), n) { WriteStep(run, acts, t, op, j, n); }
    k := EffectSoFar(run, acts, t, Asked(op), j, i);
  }

  lemma EndsAfterEffect(run: seq<State>, acts: seq<Action>, t: nat, u: Update, j: nat, i: nat, k: int)
    requires StepOk(run, acts, t, u, i) && InFlight(run[i], t) && AtRest(run[i + 1], t)
    requires NothingElse(run, acts, t, j, i, k)
    ensures run[i].threads[t].pc.Recycle? && NothingElse(run, acts, t, j, i + 1, k)
  {
  }

  /** A write that has ended has taken effect exactly once, between its first and its
      last step, as the write that was asked for. */
  lemma WriteTakesEffectOnce(run: seq<State>, acts: seq<Action>, t: nat, op: Op, j: nat, m: nat) returns (k: nat)
    requires Trace(run, acts) && op.WriteBlock? && Finished(run, acts, t, op, j, m)
    ensures j < k < m && TakesEffect(run, acts, t, Asked(op), k) && NothingElse(run, acts, t, j, m, k)
  {
    FliesFirst(run, acts, t, op, j, m);
    k := LastEffect(run, acts, t, op, j, m - 1);
  }

  lemma LastEffect(run: seq<State>, acts: seq<Action>, t: nat, op: Op, j: nat, i: nat) returns (k: nat)
    requires Trace(run, acts) && op.WriteBlock? && Flying(run, acts, t, op, j, i) && i < |acts| && AtRest(run[i + 1], t)
    ensures j < k < i && TakesEffect(run, acts, t, Asked(op), k) && NothingElse(run, acts, t, j, i + 1, k)
  {
    var n := WriteSoFar(run, acts, t, op, j, i);
    WriteStep(run, acts, t, op, j, i);
    EndsAfterEffect(run, acts, t, Asked(op), j, i, n);
    k := n;
  }

  /** And nothing else takes effect: whatever step adds to the writes behind the log,
      it is the first and only one of its operation, and adds what that asked for. */
  lemma EffectWasAsked(run: seq<State>, acts: seq<Action>, k: nat) returns (t: nat, op: Op, j: nat)
    requires Trace(run, acts) && k < |acts| && run[k + 1].hist != run[k].hist
    ensures op.WriteBlock? && Flying(run, acts, t, op, j, k)
    ensures TakesEffect(run, acts, t, Asked(op), k) && NothingElse(run, acts, t, j, k, -1)
  {
    assert StepAt(run, acts, k);
    OnlyCommitsAdd(run[k], acts[k]);
    t := acts[k].t;
    op, j := HasBegun(run, acts, t, k);
    FlightIsOne(run, acts, t, op, j, k);
    var n := WriteSoFar(run, acts, t, op, j, k);
  }

  lemma OnlyCommitsAdd(s: State, a: Action)
    requires Enabled(s, a) && Do(s, a).hist != s.hist
    ensures a.TryCommit? && InFlight(s, a.t) && s.threads[a.t].pc.Try? && s.threads[a.t].op.WriteBlock?
    ensures Do(s, a).hist == s.hist + [Asked(s.threads[a.t].op)]
  {
  }

  /* Reads. */

  /** What a finished read returns: the bytes asked for as the file held them after the
      first `at` commits, cut where the file ended after the first `snap`. Both are
      moments of the read: neither is before it began. */
  lemma ReadSees(run: seq<State>, acts: seq<Action>, t: nat, op: Op, j: nat, i: nat)
    requires Trace(run, acts) && Began(acts, t, op, j, i) && InFlight(run[i], t) && run[i].threads[t].pc.Done?
    ensures op.ReadBlock? && run[i].threads[t].op == op
    ensures var s, th, off := run[i], run[i].threads[t], op.vidx * BLOCK_SIZE + op.lo;
            && |run[j].log| <= th.snap <= th.pc.at <= |s.log| == |s.hist|
            && th.count == |Read(Replay(s.hist[..th.snap]), off, op.count)| && op.lo + th.count <= BLOCK_SIZE
            && th.buf[op.lo..op.lo + th.count] == Read(Replay(s.hist[..th.pc.at]), off, th.count)
  {
    StaysInOp(run, acts, t, op, j, i);
    ReadBytes(run, i, t);
    var o := RunInv(run, i);
  }

  /** A read does not end without that. */
  lemma ReadEnds(run: seq<State>, acts: seq<Action>, t: nat, op: Op, j: nat, m: nat)
    requires Trace(run, acts) && op.ReadBlock? && Finished(run, acts, t, op, j, m)
    ensures Began(acts, t, op, j, m - 1) && InFlight(run[m - 1], t) && run[m - 1].threads[t].pc.Done?
  {
    FliesFirst(run, acts, t, op, j, m);
    LastIsDone(run, acts, t, op, j, m - 1);
  }

  lemma LastIsDone(run: seq<State>, acts: seq<Action>, t: nat, op: Op, j: nat, i: nat)
    requires Trace(run, acts) && op.ReadBlock? && Flying(run, acts, t, op, j, i) && i < |acts| && AtRest(run[i + 1], t)
    ensures Began(acts, t, op, j, i) && InFlight(run[i], t) && run[i].threads[t].pc.Done?
  {
    FlightIsOne(run, acts, t, op, j, i);
    assert StepAt(run, acts, i);
    var o := RunInv(run, i);
    assert ThreadOk(run[i], run[i].threads[t]);
    EndsDone(run[i], acts[i], t);
  }

  lemma EndsDone(s: State, a: Action, t: nat)
    requires Enabled(s, a) && InFlight(s, t) && ThreadOk(s, s.threads[t]) && s.threads[t].op.ReadBlock?
    requires AtRest(Do(s, a), t)
    ensures s.threads[t].pc.Done?
  {
    if !Own(a, t) { OtherThread(s, a, t); }
  }
}
