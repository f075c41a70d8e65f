/** How many operations may be in flight when reads at the end of the file skip
    their turn: 15, counted from the oldest one on. */
module OffsetWindow {
  import opened OffsetRing

  /** From every ticket that is not released on, at most `w` tickets were issued. */
  predicate Windowed(s: State, w: nat)
  {
    forall t | 0 <= t < |s.threads| && !s.threads[t].Idle? :: s.nextTicket <= s.threads[t].ticket + w
  }

  ghost predicate WindowedRun(run: seq<State>, w: nat) { forall i | 0 <= i < |run| :: Windowed(run[i], w) }

  /* The invariant for a window of 15. */

  ghost predicate TicketsOk(s: State)
  {
    && s.nextTicket > 0 && |s.queues| == SLOTS
    && (forall t | 0 <= t < |s.threads| && !s.threads[t].Idle? :: 1 <= s.threads[t].ticket < s.nextTicket)
    && (forall t, u | 0 <= t < u < |s.threads| && !s.threads[t].Idle? && !s.threads[u].Idle? ::
          s.threads[t].ticket != s.threads[u].ticket)
  }

  /** Released tickets are in their slots as long as the slot is not issued again. */
  ghost predicate SlotsOk(s: State)
    requires |s.queues| == SLOTS
  {
    forall k: nat | 1 <= k < s.nextTicket <= k + SLOTS && !IsHeld(s.threads, k) :: InSlot(s.queues, k)
  }

  predicate InSlot(queues: seq<nat>, k: nat)
    requires |queues| == SLOTS
  {
    queues[k % SLOTS] == k
  }

  ghost predicate WInv(s: State) { TicketsOk(s) && SlotsOk(s) }

  lemma HeldAfter(s: State, t: nat, th: Thread, k: nat)
    requires t < |s.threads| && IsHeld(s.threads, k) && !Holds(s.threads[t], k)
    ensures IsHeld(s.threads[t := th], k)
  {
    var u :| 0 <= u < |s.threads| && Holds(s.threads[u], k);
    assert Holds(s.threads[t := th][u], k);
  }

  lemma AcquireKeeps(s: State, t: nat, count: nat, atEof: bool)
    requires WInv(s) && Enabled(s, Acquire(t, count, atEof))
    ensures WInv(Do(s, Acquire(t, count, atEof)))
  {
    var s' := Do(s, Acquire(t, count, atEof));
    forall k: nat | 1 <= k < s'.nextTicket <= k + SLOTS && !IsHeld(s'.threads, k) ensures InSlot(s'.queues, k) {
      assert Holds(s'.threads[t], s.nextTicket);
      if IsHeld(s.threads, k) { HeldAfter(s, t, s'.threads[t], k); }
    }
  }

  /** A thread goes on with the same ticket. */
  lemma PhaseKeeps(s: State, t: nat, th: Thread, s': State)
    requires WInv(s) && t < |s.threads| && !s.threads[t].Idle? && !th.Idle? && th.ticket == s.threads[t].ticket
    requires s' == s.(threads := s.threads[t := th], log := s'.log)
    ensures WInv(s')
  {
    forall k: nat | 1 <= k < s'.nextTicket <= k + SLOTS && !IsHeld(s'.threads, k) ensures InSlot(s'.queues, k) {
      if IsHeld(s.threads, k) {
        assert Holds(s'.threads[t], th.ticket);
        assert k != th.ticket;
        HeldAfter(s, t, th, k);
      }
    }
  }

  /** A release overwrites no ticket that somebody may still wait for. */
  lemma ReleaseKeeps(s: State, t: nat)
    requires WInv(s) && Windowed(s, 15) && Enabled(s, Release(t))
    ensures WInv(Do(s, Release(t)))
  {
    var s', b := Do(s, Release(t)), s.threads[t].ticket;
    forall k: nat | 1 <= k < s'.nextTicket <= k + SLOTS && !IsHeld(s'.threads, k) ensures InSlot(s'.queues, k) {
      if k != b {
        if IsHeld(s.threads, k) { HeldAfter(s, t, Idle, k); }
        assert InSlot(s.queues, k);
        SameSlot(k, b);
      }
    }
  }

  lemma SameSlot(k: nat, b: nat)
    requires k != b && k < b + SLOTS && b < k + SLOTS
    ensures k % SLOTS != b % SLOTS
  {
  }

  lemma StepKeeps(s: State, a: Action)
    requires WInv(s) && Windowed(s, 15) && Enabled(s, a)
    ensures WInv(Do(s, a))
  {
    match a
    case Acquire(t, count, atEof) => AcquireKeeps(s, t, count, atEof);
    case Wait(t) => PhaseKeeps(s, t, Waited(s.threads[t].ticket), Do(s, a));
    case Pass(t, _) => PhaseKeeps(s, t, Done(s.threads[t].ticket), Do(s, a));
    case SkipWait(t) => PhaseKeeps(s, t, Done(s.threads[t].ticket), Do(s, a));
    case Release(t) => ReleaseKeeps(s, t);
  }

  lemma {:induction false} RunKeeps(run: seq<State>, i: nat)
    requires Run(run) && i < |run| && WindowedRun(run, 15)
    ensures WInv(run[i])
  {
    if i > 0 {
      RunKeeps(run, i - 1);
      assert Next(run[i - 1], run[i]) && Windowed(run[i - 1], 15);
      var a :| Enabled(run[i - 1], a) && run[i] == Do(run[i - 1], a);
      StepKeeps(run[i - 1], a);
    }
  }

  /** The oldest operation in flight. */
  lemma {:induction false} Oldest(s: State, n: nat) returns (m: nat)
    requires n <= |s.threads| && exists t :: 0 <= t < n && !s.threads[t].Idle?
    ensures m < n && !s.threads[m].Idle?
    ensures forall t | 0 <= t < n && !s.threads[t].Idle? :: s.threads[m].ticket <= s.threads[t].ticket
  {
    if exists t :: 0 <= t < n - 1 && !s.threads[t].Idle? {
      m := Oldest(s, n - 1);
      if !s.threads[n - 1].Idle? && s.threads[n - 1].ticket < s.threads[m].ticket { m := n - 1; }
    } else {
      m := n - 1;
    }
  }

  /** The oldest one can go on. */
  lemma StaysLive(run: seq<State>, i: nat)
    requires Run(run) && i < |run| && WindowedRun(run, 15)
    ensures Live(run[i])
  {
    RunKeeps(run, i);
    var s := run[i];
    assert Windowed(s, 15);
    if exists t :: 0 <= t < |s.threads| && !s.threads[t].Idle? {
      var m := Oldest(s, |s.threads|);
      if s.threads[m].Acquired? && s.threads[m].ticket > 1 {
        var prev := s.threads[m].ticket - 1;
        assert !IsHeld(s.threads, prev);
        assert InSlot(s.queues, prev);
      }
      assert Enabled(s, Wait(m)) || Enabled(s, Pass(m, true)) || Enabled(s, SkipWait(m)) || Enabled(s, Release(m));
    }
  }

  /* One more is too many. */

  lemma ExtendWindowed(run: seq<State>, a: Action) returns (run': seq<State>)
    requires Run(run) && WindowedRun(run, SLOTS) && Enabled(run[|run| - 1], a) && Windowed(Do(run[|run| - 1], a), SLOTS)
    ensures Run(run') && WindowedRun(run', SLOTS) && run' != [] && run'[|run'| - 1] == Do(run[|run| - 1], a)
  {
    run' := run + [Do(run[|run| - 1], a)];
    forall i, k | 0 <= i && k == i + 1 && k < |run'| ensures Next(run'[i], run'[k]) {
      if k < |run| { assert Next(run[i], run[k]); }
    }
    forall i | 0 <= i < |run'| ensures Windowed(run'[i], SLOTS) {
      if i < |run| { assert Windowed(run[i], SLOTS); }
    }
  }

  /** Ticket 1 was released; the first thread has ticket 2 and has not looked yet,
      while the second one has made `n` reads at the end of the file. */
  ghost predicate Slow(s: State, n: nat)
  {
    && s.eofReads && s.threads == [Acquired(2, false), Idle] && s.nextTicket == n + 3 && |s.queues| == SLOTS
    && (n > 0 ==> InSlot(s.queues, n + 2))
  }

  lemma {:induction false} SlowRun(n: nat) returns (run: seq<State>)
    requires n <= 15
    ensures Run(run) && WindowedRun(run, SLOTS) && run != [] && Slow(run[|run| - 1], n)
  {
    if n == 0 {
      run := [State(0, 1, seq(SLOTS, _ => 0), [Idle, Idle], [], [], true)];
      run := ExtendWindowed(run, Acquire(0, 1, false));
      run := ExtendWindowed(run, Wait(0));
      run := ExtendWindowed(run, Pass(0, true));
      run := ExtendWindowed(run, Release(0));
      run := ExtendWindowed(run, Acquire(0, 1, false));
    } else {
      run := SlowRun(n - 1);
      run := ExtendWindowed(run, Acquire(1, 0, true));
      run := ExtendWindowed(run, SkipWait(1));
      run := ExtendWindowed(run, Release(1));
    }
  }

  ghost predicate AlwaysLiveWithin(w: nat)
  {
    forall run: seq<State> | Run(run) && WindowedRun(run, w) :: Live(run[|run| - 1])
  }

  /** With reads at the end of the file, somebody can always go on exactly if at most
      15 tickets are issued from the oldest unreleased one on. */
  lemma WindowIff(w: nat)
    ensures AlwaysLiveWithin(w) <==> w <= 15
  {
    if w <= 15 {
      forall run: seq<State> | Run(run) && WindowedRun(run, w) ensures Live(run[|run| - 1]) {
        forall i | 0 <= i < |run| ensures Windowed(run[i], 15) { assert Windowed(run[i], w); }
        StaysLive(run, |run| - 1);
      }
    } else {
      var run := SlowRun(15);
      var s := run[|run| - 1];
      forall i | 0 <= i < |run| ensures Windowed(run[i], w) { assert Windowed(run[i], SLOTS); }
      assert InSlot(s.queues, 17) && !Enabled(s, Wait(0)) && !s.threads[0].Idle?;
      assert !Live(s);
    }
  }
}
