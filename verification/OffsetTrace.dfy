/** What the shared offset gives to the calls of `read` and `write`: each gets the
    bytes behind those of all calls before it, and writes are committed in that order. */
module OffsetTrace {
  import opened OffsetRing

  ghost predicate StepAt(run: seq<State>, acts: seq<Action>, k: nat)
  {
    k < |acts| < |run| && Enabled(run[k], acts[k]) && run[k + 1] == Do(run[k], acts[k])
  }

  /** A run with the action of each step. */
  ghost predicate Trace(run: seq<State>, acts: seq<Action>)
  {
    Run(run) && |run| == |acts| + 1 && forall k | 0 <= k < |acts| :: StepAt(run, acts, k)
  }

  /* What each call gets. */

  function Wanted(a: Action): nat { if a.Acquire? then a.count else 0 }

  /** What the first `i` actions ask for. */
  function Total(acts: seq<Action>, i: nat): nat
    requires i <= |acts|
  {
    if i == 0 then 0 else Total(acts, i - 1) + Wanted(acts[i - 1])
  }

  function Calls(acts: seq<Action>, i: nat): nat
    requires i <= |acts|
  {
    if i == 0 then 0 else Calls(acts, i - 1) + if acts[i - 1].Acquire? then 1 else 0
  }

  lemma {:induction false} TotalGrows(acts: seq<Action>, i: nat, k: nat)
    requires i < k <= |acts|
    ensures Total(acts, i) + Wanted(acts[i]) <= Total(acts, k)
    ensures Calls(acts, i) + (if acts[i].Acquire? then 1 else 0) <= Calls(acts, k)
  {
    if i < k - 1 { TotalGrows(acts, i, k - 1); }
  }

  lemma StepOffset(s: State, a: Action)
    requires Enabled(s, a)
    ensures Do(s, a).offset == s.offset + Wanted(a)
    ensures Do(s, a).nextTicket == s.nextTicket + if a.Acquire? then 1 else 0
    ensures Do(s, a).taken == s.taken + if a.Acquire? then [Range(s.offset, a.count)] else []
  {
  }

  /** The offset has moved by all that was asked for, and each call has got a ticket. */
  lemma {:induction false} OffsetIsTotal(run: seq<State>, acts: seq<Action>, i: nat)
    requires Trace(run, acts) && i < |run|
    ensures run[i].offset == run[0].offset + Total(acts, i)
    ensures run[i].nextTicket == 1 + Calls(acts, i) && |run[i].taken| == Calls(acts, i)
  {
    if i > 0 {
      OffsetIsTotal(run, acts, i - 1);
      assert StepAt(run, acts, i - 1);
      StepOffset(run[i - 1], acts[i - 1]);
    }
  }

  /** The call of step `j` has got the bytes from where the offset then was: those
      behind the ones that all earlier calls asked for, and as many as it asked for. */
  lemma {:induction false} CallGets(run: seq<State>, acts: seq<Action>, j: nat, i: nat)
    requires Trace(run, acts) && j < i < |run| && acts[j].Acquire?
    ensures Calls(acts, j) < |run[i].taken|
    ensures run[i].taken[Calls(acts, j)] == Range(run[0].offset + Total(acts, j), acts[j].count)
  {
    OffsetIsTotal(run, acts, j);
    var s, a := run[i - 1], acts[i - 1];
    assert StepAt(run, acts, i - 1);
    StepOffset(s, a);
    if j < i - 1 { CallGets(run, acts, j, i - 1); }
  }

  /** The bytes of two calls do not overlap: the later one's are behind. */
  lemma CallsInOrder(run: seq<State>, acts: seq<Action>, j: nat, k: nat)
    requires Trace(run, acts) && j < k < |acts| && acts[j].Acquire? && acts[k].Acquire?
    ensures run[j].offset + acts[j].count <= run[k].offset
  {
    OffsetIsTotal(run, acts, j);
    OffsetIsTotal(run, acts, k);
    TotalGrows(acts, j, k);
  }

  /* Its ticket. */

  /** Step `j` is a call of thread `t`, which calls nothing else before step `i`. */
  ghost predicate Called(acts: seq<Action>, t: nat, j: nat, i: nat)
  {
    && j < i <= |acts| && acts[j].Acquire? && acts[j].t == t
    && forall k | j < k < i :: !(acts[k].Acquire? && acts[k].t == t)
  }

  predicate HasOrNone(s: State, t: nat, ticket: nat)
  {
    t < |s.threads| && (s.threads[t].Idle? || s.threads[t].ticket == ticket)
  }

  lemma StepTicket(s: State, a: Action, t: nat, ticket: nat)
    requires Enabled(s, a) && HasOrNone(s, t, ticket) && !(a.Acquire? && a.t == t)
    ensures HasOrNone(Do(s, a), t, ticket)
  {
  }

  lemma {:induction false} TicketStays(run: seq<State>, acts: seq<Action>, t: nat, j: nat, i: nat)
    requires Trace(run, acts) && Called(acts, t, j, i)
    ensures HasOrNone(run[i], t, 1 + Calls(acts, j))
  {
    assert StepAt(run, acts, i - 1);
    if i - 1 == j {
      OffsetIsTotal(run, acts, j);
    } else {
      TicketStays(run, acts, t, j, i - 1);
      StepTicket(run[i - 1], acts[i - 1], t, 1 + Calls(acts, j));
    }
  }

  /* Commits. */

  /** Step `p` commits the write that thread `t` has called at step `j`. */
  ghost predicate Commits(acts: seq<Action>, t: nat, j: nat, p: nat)
  {
    p < |acts| && Called(acts, t, j, p) && acts[p] == Pass(t, true)
  }

  lemma LogGrows(s: State, a: Action)
    requires Enabled(s, a)
    ensures s.log <= Do(s, a).log
  {
  }

  /** The ticket of a committed write is in the log, and was put there by the commit. */
  lemma {:induction false} CommitIsLogged(run: seq<State>, acts: seq<Action>, t: nat, j: nat, p: nat, i: nat)
    requires Trace(run, acts) && Commits(acts, t, j, p) && p < i < |run|
    ensures |run[p].log| < |run[i].log| && run[i].log[|run[p].log|] == 1 + Calls(acts, j)
    ensures run[p].log <= run[i].log
  {
    assert StepAt(run, acts, i - 1);
    if p == i - 1 {
      TicketStays(run, acts, t, j, p);
    } else {
      CommitIsLogged(run, acts, t, j, p, i - 1);
      LogGrows(run[i - 1], acts[i - 1]);
    }
  }

  lemma LogIncreases(run: seq<State>, i: nat, m: nat, n: nat)
    requires Run(run) && i < |run| && !run[0].eofReads && m < n < |run[i].log|
    ensures run[i].log[m] < run[i].log[n]
  {
    TicketOrder(run, i);
  }

  lemma CommitsInTicketOrder(run: seq<State>, acts: seq<Action>, t: nat, j: nat, p: nat, t': nat, j': nat, p': nat)
    requires Trace(run, acts) && !run[0].eofReads && p < p' && Commits(acts, t, j, p) && Commits(acts, t', j', p')
    ensures Calls(acts, j) < Calls(acts, j')
  {
    var i := p' + 1;
    CommitIsLogged(run, acts, t, j, p, i);
    CommitIsLogged(run, acts, t, j, p, p');
    CommitIsLogged(run, acts, t', j', p', i);
    LogIncreases(run, i, |run[p].log|, |run[p'].log|);
  }

  function Writes(acts: seq<Action>, i: nat): nat
    requires i <= |acts|
  {
    if i == 0 then 0 else Writes(acts, i - 1) + if acts[i - 1].Pass? && acts[i - 1].write then 1 else 0
  }

  /** Nothing else is in the log. */
  lemma {:induction false} OnlyCommitsAreLogged(run: seq<State>, acts: seq<Action>, i: nat)
    requires Trace(run, acts) && i < |run|
    ensures |run[i].log| == Writes(acts, i)
  {
    if i > 0 {
      OnlyCommitsAreLogged(run, acts, i - 1);
      assert StepAt(run, acts, i - 1);
    }
  }

  /** Without reads at the end of the file: of two writes, the one that is committed
      first has been called first, and all its bytes are before those of the other. */
  lemma CommitsInCallOrder(run: seq<State>, acts: seq<Action>, t: nat, j: nat, p: nat, t': nat, j': nat, p': nat)
    requires Trace(run, acts) && !run[0].eofReads && p < p' && Commits(acts, t, j, p) && Commits(acts, t', j', p')
    ensures j < j' && run[j].offset + acts[j].count <= run[j'].offset
    ensures run[j].offset == run[0].offset + Total(acts, j) && run[j'].offset == run[0].offset + Total(acts, j')
  {
    CommitsInTicketOrder(run, acts, t, j, p, t', j', p');
    OffsetIsTotal(run, acts, j);
    OffsetIsTotal(run, acts, j');
    if j' < j { TotalGrows(acts, j', j); }
    CallsInOrder(run, acts, j, j');
  }

  /* Every call passes its serialization point once. */

  predicate InFlight(s: State, t: nat) { t < |s.threads| && !s.threads[t].Idle? }

  predicate Passes(a: Action, t: nat) { a.Pass? && a.t == t }

  /** The thread passes nowhere from step `j` to step `i - 1`, except at step `p`. */
  ghost predicate PassesAt(acts: seq<Action>, t: nat, j: nat, i: nat, p: int)
  {
    && i <= |acts| && (forall k | j <= k < i && k != p :: !Passes(acts[k], t))
    && (p == -1 || (j < p < i && Passes(acts[p], t)))
  }

  /** Whether a thread in this phase, of a call that does not skip its turn, has passed. */
  predicate PhaseOk(th: Thread, passed: bool)
  {
    match th
    case Idle => passed
    case Acquired(_, atEof) => !atEof && !passed
    case Waited(_) => !passed
    case Done(_) => passed
  }

  lemma StepPhase(s: State, a: Action, t: nat, passed: bool)
    requires Enabled(s, a) && InFlight(s, t) && PhaseOk(s.threads[t], passed)
    ensures t < |Do(s, a).threads| && PhaseOk(Do(s, a).threads[t], passed || Passes(a, t))
    ensures Passes(a, t) ==> !passed
  {
  }

  lemma {:induction false} PassSoFar(run: seq<State>, acts: seq<Action>, t: nat, j: nat, i: nat) returns (p: int)
    requires Trace(run, acts) && j < i <= |acts| && acts[j].Acquire? && acts[j].t == t && !acts[j].atEof
    requires forall k | j < k < i :: InFlight(run[k], t)
    ensures PassesAt(acts, t, j, i, p) && t < |run[i].threads| && PhaseOk(run[i].threads[t], p != -1)
  {
    var n := i - 1;
    assert StepAt(run, acts, n);
    p := -1;
    if j < n {
      p := PassSoFar(run, acts, t, j, n);
      assert InFlight(run[n], t);
      StepPhase(run[n], acts[n], t, p != -1);
      if Passes(acts[n], t) { p := n; }
    }
  }

  /** A call that does not skip its turn and is over, with step `m - 1`, has passed
      exactly once in between: a write has been committed, or a read validated. */
  lemma PassesOnce(run: seq<State>, acts: seq<Action>, t: nat, j: nat, m: nat) returns (p: nat)
    requires Trace(run, acts) && j < m <= |acts| && acts[j].Acquire? && acts[j].t == t && !acts[j].atEof
    requires (forall k | j < k < m :: InFlight(run[k], t)) && !InFlight(run[m], t)
    ensures j < p < m && Passes(acts[p], t) && forall k | j <= k < m && k != p :: !Passes(acts[k], t)
  {
    var n := PassSoFar(run, acts, t, j, m);
    p := n;
  }
}
