/** The shared file offset: operations take tickets together with their offset
    range, and each waits, in a ring of 16 slots, for the one before it. */
module OffsetRing {

  const SLOTS: nat := 16

  // What one operation acquired.
  datatype Range = Range(offset: nat, count: nat)

  // `Acquired` has not yet seen the release of the previous ticket, `Waited` has,
  // and `Done` has passed its serialization point but not released its ticket.
  // `atEof` marks a read that starts at the end of the file.
  datatype Thread = Idle | Acquired(ticket: nat, atEof: bool) | Waited(ticket: nat) | Done(ticket: nat)

  // `taken` lists what was acquired, by ticket, from ticket 1 on, and `log` the
  // tickets of writes in the order of their commits. `eofReads` says whether
  // reads that start at the end of the file occur.
  datatype State = State(offset: nat, nextTicket: nat, queues: seq<nat>, threads: seq<Thread>,
                         taken: seq<Range>, log: seq<nat>, eofReads: bool)

  datatype Action =
    | Acquire(t: nat, count: nat, atEof: bool)
    | Wait(t: nat)
    | Pass(t: nat, write: bool)  // a write commits, a read validates
    | SkipWait(t: nat)           // a read at the end of the file does neither
    | Release(t: nat)

  predicate Enabled(s: State, a: Action)
  {
    && a.t < |s.threads|
    && match a
       case Acquire(t, _, atEof) => s.threads[t].Idle? && (atEof ==> s.eofReads)
       case Wait(t) =>
         && s.threads[t].Acquired? && !s.threads[t].atEof
         && var prev := s.threads[t].ticket - 1;
            prev == 0 || (|s.queues| == SLOTS && s.queues[prev % SLOTS] == prev)
       case Pass(t, _) => s.threads[t].Waited?
       case SkipWait(t) => s.threads[t].Acquired? && s.threads[t].atEof
       case Release(t) => s.threads[t].Done? && |s.queues| == SLOTS
  }

  function Do(s: State, a: Action): State
    requires Enabled(s, a)
  {
    match a
    case Acquire(t, count, atEof) =>
      s.(offset := s.offset + count, nextTicket := s.nextTicket + 1, taken := s.taken + [Range(s.offset, count)],
         threads := s.threads[t := Acquired(s.nextTicket, atEof)])
    case Wait(t) => s.(threads := s.threads[t := Waited(s.threads[t].ticket)])
    case Pass(t, write) =>
      s.(threads := s.threads[t := Done(s.threads[t].ticket)],
         log := if write then s.log + [s.threads[t].ticket] else s.log)
    case SkipWait(t) => s.(threads := s.threads[t := Done(s.threads[t].ticket)])
    case Release(t) =>
      var k := s.threads[t].ticket;
      s.(queues := s.queues[k % SLOTS := k], threads := s.threads[t := Idle])
  }

  ghost predicate Init(s: State)
  {
    && s.nextTicket == 1 && s.queues == seq(SLOTS, _ => 0) && s.taken == [] && s.log == []
    && forall t | 0 <= t < |s.threads| :: s.threads[t].Idle?
  }

  ghost predicate Next(s: State, s': State) { exists a :: Enabled(s, a) && s' == Do(s, a) }

  ghost predicate Run(run: seq<State>)
  {
    && run != [] && Init(run[0])
    && forall i, k | 0 <= i && k == i + 1 && k < |run| :: Next(run[i], run[k])
  }

  /* The invariant; the first `r` tickets have been released. */

  /** The ticket that slot `i` holds when the first `r` tickets were released in
      order. */
  function Latest(r: nat, i: nat): nat
  {
    if r == 0 then 0 else if r % SLOTS == i then r else Latest(r - 1, i)
  }

  predicate Holds(th: Thread, k: nat) { !th.Idle? && th.ticket == k }

  ghost predicate IsHeld(threads: seq<Thread>, k: nat) { exists t :: 0 <= t < |threads| && Holds(threads[t], k) }

  ghost predicate ThreadOk(s: State, r: nat, th: Thread)
  {
    !th.Idle? ==>
      && r < th.ticket < s.nextTicket && (!th.Acquired? ==> th.ticket == r + 1)
      && (!th.Done? ==> th.ticket !in s.log) && (th.Acquired? ==> !th.atEof)
  }

  /** Consecutive ranges touch, and the last one ends at the offset. */
  ghost predicate Tiles(taken: seq<Range>, start: nat, offset: nat)
  {
    if taken == [] then offset == start
    else
      var last := taken[|taken| - 1];
      offset == last.offset + last.count && Tiles(taken[..|taken| - 1], start, last.offset)
  }

  ghost predicate Increasing(log: seq<nat>) { forall i, k | 0 <= i < k < |log| :: log[i] < log[k] }

  ghost predicate Inv(s: State, r: nat, start: nat)
  {
    && r < s.nextTicket && |s.queues| == SLOTS && (forall i | 0 <= i < SLOTS :: s.queues[i] == Latest(r, i))
    && (forall t | 0 <= t < |s.threads| :: ThreadOk(s, r, s.threads[t]))
    && (forall t, u | 0 <= t < u < |s.threads| ::
        s.threads[t].Idle? || s.threads[u].Idle? || s.threads[t].ticket != s.threads[u].ticket)
    && (forall k | r < k < s.nextTicket :: IsHeld(s.threads, k))
    && |s.taken| == s.nextTicket - 1 && Tiles(s.taken, start, s.offset)
    && Increasing(s.log) && (forall i | 0 <= i < |s.log| :: s.log[i] <= r + 1 && s.log[i] < s.nextTicket)
  }

  lemma {:induction false} LatestSelf(r: nat)
    ensures r > 0 ==> Latest(r, r % SLOTS) == r
  {
  }

  lemma AcquireStep(s: State, r: nat, start: nat, t: nat, count: nat)
    requires Inv(s, r, start) && Enabled(s, Acquire(t, count, false))
    ensures Inv(Do(s, Acquire(t, count, false)), r, start)
  {
    var s' := Do(s, Acquire(t, count, false));
    assert s'.taken[..|s.taken|] == s.taken;
    forall k | r < k < s'.nextTicket ensures IsHeld(s'.threads, k) {
      if k == s.nextTicket {
        assert Holds(s'.threads[t], k);
      } else {
        assert IsHeld(s.threads, k);
        var u :| 0 <= u < |s.threads| && Holds(s.threads[u], k);
        assert Holds(s'.threads[u], k);
      }
    }
    forall u | 0 <= u < |s'.threads| ensures ThreadOk(s', r, s'.threads[u]) { assert ThreadOk(s, r, s.threads[u]); }
  }

  /** The holder of ticket `k` changes its phase, at most adding `k` to the log. */
  lemma PhaseStep(s: State, r: nat, start: nat, t: nat, th: Thread, log: seq<nat>)
    requires Inv(s, r, start) && t < |s.threads| && !s.threads[t].Idle? && (th.Waited? || th.Done?)
    requires th.ticket == s.threads[t].ticket == r + 1
    requires log == s.log || (log == s.log + [r + 1] && th.Done? && !s.threads[t].Done?)
    requires th.Waited? ==> log == s.log && !s.threads[t].Done?
    ensures Inv(s.(threads := s.threads[t := th], log := log), r, start)
  {
    var s' := s.(threads := s.threads[t := th], log := log);
    assert ThreadOk(s, r, s.threads[t]);
    forall u | 0 <= u < |s'.threads| ensures ThreadOk(s', r, s'.threads[u]) { assert ThreadOk(s, r, s.threads[u]); }
    forall k | r < k < s'.nextTicket ensures IsHeld(s'.threads, k) {
      assert IsHeld(s.threads, k);
      var u :| 0 <= u < |s.threads| && Holds(s.threads[u], k);
      assert Holds(s'.threads[u], k);
    }
  }

  lemma ReleaseStep(s: State, r: nat, start: nat, t: nat)
    requires Inv(s, r, start) && Enabled(s, Release(t))
    ensures Inv(Do(s, Release(t)), r + 1, start)
  {
    var s' := Do(s, Release(t));
    assert ThreadOk(s, r, s.threads[t]);
    forall u | 0 <= u < |s'.threads| ensures ThreadOk(s', r + 1, s'.threads[u]) { assert ThreadOk(s, r, s.threads[u]); }
    forall k | r + 1 < k < s'.nextTicket ensures IsHeld(s'.threads, k) {
      assert IsHeld(s.threads, k);
      var u :| 0 <= u < |s.threads| && Holds(s.threads[u], k);
      assert Holds(s'.threads[u], k);
    }
  }

  lemma WaitStep(s: State, r: nat, start: nat, t: nat)
    requires Inv(s, r, start) && Enabled(s, Wait(t))
    ensures Inv(Do(s, Wait(t)), r, start)
  {
    WaitIsNext(s, r, start, t);
    PhaseStep(s, r, start, t, Waited(r + 1), s.log);
  }

  lemma PassStep(s: State, r: nat, start: nat, t: nat, write: bool)
    requires Inv(s, r, start) && Enabled(s, Pass(t, write)) && !s.eofReads
    ensures Inv(Do(s, Pass(t, write)), r, start)
  {
    assert ThreadOk(s, r, s.threads[t]);
    PhaseStep(s, r, start, t, Done(r + 1), if write then s.log + [r + 1] else s.log);
  }

  lemma StepInv(s: State, r: nat, start: nat, a: Action) returns (r': nat)
    requires Inv(s, r, start) && Enabled(s, a) && !s.eofReads
    ensures Inv(Do(s, a), r', start) && r <= r' <= r + 1
  {
    r' := r;
    match a
    case Acquire(t, count, _) => AcquireStep(s, r, start, t, count);
    case Wait(t) => WaitStep(s, r, start, t);
    case Pass(t, write) => PassStep(s, r, start, t, write);
    case Release(t) =>
      ReleaseStep(s, r, start, t);
      r' := r + 1;
  }

  lemma {:induction false} LatestAtMost(r: nat, i: nat)
    ensures Latest(r, i) <= r
  {
    if r > 0 { LatestAtMost(r - 1, i); }
  }

  /** A wait succeeds exactly for the next ticket to be released. */
  lemma WaitIsNext(s: State, r: nat, start: nat, t: nat)
    requires Inv(s, r, start) && t < |s.threads| && s.threads[t].Acquired?
    ensures Enabled(s, Wait(t)) <==> s.threads[t].ticket == r + 1
  {
    assert ThreadOk(s, r, s.threads[t]);
    var prev := s.threads[t].ticket - 1;
    LatestAtMost(r, prev % SLOTS);
    LatestSelf(r);
  }

  /* Main results. */

  lemma InitInv(s: State)
    requires Init(s)
    ensures Inv(s, 0, s.offset)
  {
  }

  lemma {:induction false} RunInv(run: seq<State>, i: nat) returns (r: nat)
    requires Run(run) && i < |run| && !run[0].eofReads
    ensures Inv(run[i], r, run[0].offset) && !run[i].eofReads
  {
    if i == 0 {
      InitInv(run[0]);
      r := 0;
    } else {
      var r0 := RunInv(run, i - 1);
      assert Next(run[i - 1], run[i]);
      var a :| Enabled(run[i - 1], a) && run[i] == Do(run[i - 1], a);
      r := StepInv(run[i - 1], r0, run[0].offset, a);
    }
  }

  /** Some operation that has a ticket can go on. */
  ghost predicate Live(s: State)
  {
    (exists t :: 0 <= t < |s.threads| && !s.threads[t].Idle?) ==>
      exists t :: 0 <= t < |s.threads| && !s.threads[t].Idle?
          && (Enabled(s, Wait(t)) || Enabled(s, Pass(t, true)) || Enabled(s, SkipWait(t)) || Enabled(s, Release(t)))
  }

  /** Without reads at the end of the file, with any number of operations in
      flight: writes commit in the order of their tickets, the ranges that they
      were given tile the file, no release is lost and somebody can always go on. */
  lemma TicketOrder(run: seq<State>, i: nat)
    requires Run(run) && i < |run| && !run[0].eofReads
    ensures Increasing(run[i].log)
    ensures Tiles(run[i].taken, run[0].offset, run[i].offset)
    ensures forall k | 0 <= k < |run[i].log| :: 1 <= run[i].log[k] <= |run[i].taken|
    ensures Live(run[i])
  {
    var r := RunInv(run, i);
    var s := run[i];
    LogPositive(run, i);
    if exists t :: 0 <= t < |s.threads| && !s.threads[t].Idle? {
      var t0 :| 0 <= t0 < |s.threads| && !s.threads[t0].Idle?;
      assert ThreadOk(s, r, s.threads[t0]);
      assert IsHeld(s.threads, r + 1);
      var t :| 0 <= t < |s.threads| && Holds(s.threads[t], r + 1);
      assert ThreadOk(s, r, s.threads[t]);
      if s.threads[t].Acquired? { WaitIsNext(s, r, run[0].offset, t); }
      assert Enabled(s, Wait(t)) || Enabled(s, Pass(t, true)) || Enabled(s, Release(t));
    }
  }

  lemma {:induction false} LogPositive(run: seq<State>, i: nat)
    requires Run(run) && i < |run| && !run[0].eofReads
    ensures forall k | 0 <= k < |run[i].log| :: 1 <= run[i].log[k]
  {
    if i > 0 {
      LogPositive(run, i - 1);
      var r := RunInv(run, i - 1);
      assert Next(run[i - 1], run[i]);
      var a :| Enabled(run[i - 1], a) && run[i] == Do(run[i - 1], a);
      assert ThreadOk(run[i - 1], r, run[i - 1].threads[a.t]);
    }
  }

  /** A slot keeps a ticket until the next ticket has seen it. */
  lemma ReleaseIsKept(run: seq<State>, i: nat, t: nat)
    requires Run(run) && i < |run| && !run[0].eofReads && t < |run[i].threads| && run[i].threads[t].Acquired?
    requires run[i].threads[t].ticket > 1
    requires forall u | 0 <= u < |run[i].threads| && !run[i].threads[u].Idle? ::
        run[i].threads[u].ticket >= run[i].threads[t].ticket
    ensures |run[i].queues| == SLOTS
    ensures var k := run[i].threads[t].ticket - 1; run[i].queues[k % SLOTS] == k
  {
    var r := RunInv(run, i);
    var s := run[i];
    assert ThreadOk(s, r, s.threads[t]);
    assert IsHeld(s.threads, r + 1);
    var u :| 0 <= u < |s.threads| && Holds(s.threads[u], r + 1);
    WaitIsNext(s, r, run[0].offset, t);
  }

  lemma {:induction false} TilesInOrder(taken: seq<Range>, start: nat, offset: nat, i: nat, k: nat)
    requires Tiles(taken, start, offset) && i < k <= |taken|
    ensures taken[i].offset + taken[i].count <= if k < |taken| then taken[k].offset else offset
    decreases |taken|
  {
    var last, init := taken[|taken| - 1], taken[..|taken| - 1];
    if k == |taken| {
      if i < |init| { TilesInOrder(init, start, last.offset, i, |init|); }
    } else {
      TilesInOrder(init, start, last.offset, i, k);
    }
  }

  /** Writes commit in the order of their places in the file, and never overlap. */
  lemma CommitsInFileOrder(run: seq<State>, i: nat, m: nat, n: nat)
    requires Run(run) && i < |run| && !run[0].eofReads && m < n < |run[i].log|
    ensures 1 <= run[i].log[m] <= |run[i].taken| && 1 <= run[i].log[n] <= |run[i].taken|
    ensures var first, second := run[i].taken[run[i].log[m] - 1], run[i].taken[run[i].log[n] - 1];
            first.offset + first.count <= second.offset
  {
    TicketOrder(run, i);
    TilesInOrder(run[i].taken, run[0].offset, run[i].offset, run[i].log[m] - 1, run[i].log[n] - 1);
  }

  /* Reads at the end of the file. */

  lemma Extend(run: seq<State>, a: Action) returns (run': seq<State>)
    requires Run(run) && Enabled(run[|run| - 1], a)
    ensures Run(run') && run'[0] == run[0] && |run'| > 1 && run'[|run'| - 1] == Do(run[|run| - 1], a)
  {
    run' := run + [Do(run[|run| - 1], a)];
    forall i, k | 0 <= i && k == i + 1 && k < |run'| ensures Next(run'[i], run'[k]) {
      if k < |run| { assert Next(run[i], run[k]); }
    }
  }

  /** Two threads: the first still holds ticket 1, while the second has made `n`
      reads at the end of the file. */
  ghost predicate Behind(s: State, n: nat)
  {
    && s.eofReads && s.threads == [Acquired(1, false), Idle] && s.nextTicket == n + 2 && |s.queues| == SLOTS
    && (n > 0 ==> s.queues[(n + 1) % SLOTS] == n + 1)
  }

  lemma {:induction false} FallBehind(n: nat) returns (run: seq<State>)
    ensures Run(run) && run[0].eofReads && Behind(run[|run| - 1], n)
  {
    if n == 0 {
      run := [State(0, 1, seq(SLOTS, _ => 0), [Idle, Idle], [], [], true)];
      run := Extend(run, Acquire(0, 1, false));
    } else {
      run := FallBehind(n - 1);
      run := Extend(run, Acquire(1, 0, true));
      run := Extend(run, SkipWait(1));
      run := Extend(run, Release(1));
    }
  }

  /** Ticket 18 waits for the release of ticket 17, which ticket 1 has overwritten. */
  ghost predicate Lost(s: State)
  {
    && |s.threads| == 2 && s.threads[1] == Acquired(18, false) && s.nextTicket > 18 && |s.queues| == SLOTS
        && s.queues[1] != 17
    && !Holds(s.threads[0], 17)
  }

  lemma LoseRelease() returns (run: seq<State>)
    ensures Run(run) && run[0].eofReads && Lost(run[|run| - 1]) && run[|run| - 1].threads[0].Idle?
  {
    run := FallBehind(16);
    run := Extend(run, Wait(0));
    run := Extend(run, Pass(0, true));
    run := Extend(run, Release(0));
    run := Extend(run, Acquire(1, 1, false));
  }

  /** It waits forever: no later step lets it go on. */
  lemma {:induction false} LostForever(run: seq<State>, i: nat, k: nat)
    requires Run(run) && i <= k < |run| && Lost(run[i])
    ensures Lost(run[k]) && forall a: Action | a.t == 1 :: !Enabled(run[k], a)
    decreases k - i
  {
    if i < k {
      LostForever(run, i, k - 1);
      assert Next(run[k - 1], run[k]);
    }
  }

  ghost predicate AlwaysLive(eofReads: bool)
  {
    forall run: seq<State> | Run(run) && run[0].eofReads == eofReads :: Live(run[|run| - 1])
  }

  /** The ring keeps everybody going exactly if no read starts at the end of the
      file. */
  lemma LiveIff(eofReads: bool)
    ensures AlwaysLive(eofReads) <==> !eofReads
  {
    if eofReads {
      var run := LoseRelease();
      var s := run[|run| - 1];
      assert !s.threads[1].Idle? && !Enabled(s, Wait(1)) && !Enabled(s, SkipWait(1));
      assert !Live(s);
    } else {
      forall run: seq<State> | Run(run) && run[0].eofReads == eofReads ensures Live(run[|run| - 1]) {
        TicketOrder(run, |run| - 1);
      }
    }
  }
}
