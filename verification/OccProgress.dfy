/** Progress of the protocol in `Occ`: after its snapshot a thread never waits, and
    only commits of others can delay it. */
module OccProgress {
  import opened Layout
  import opened ByteFile
  import opened Occ
  import opened OccSafety

  ghost predicate StepAt(run: seq<State>, acts: seq<Action>, k: nat)
  {
    k < |acts| < |run| && Enabled(run[k], acts[k]) && run[k + 1] == Do(run[k], acts[k])
  }

  /** A run with the action of each step. */
  ghost predicate Trace(run: seq<State>, acts: seq<Action>)
  {
    Run(run) && |run| == |acts| + 1 && forall k | 0 <= k < |acts| :: StepAt(run, acts, k)
  }

  predicate Own(a: Action, t: nat) { !a.ApplyEntry? && !a.Publish? && ThreadOf(a) == t }

  /** The thread is between its snapshot and the end of its operation. */
  predicate Busy(s: State, t: nat)
  {
    t < |s.threads| && !s.threads[t].pc.Idle? && !s.threads[t].pc.Begun?
  }

  function Count(bs: seq<bool>, i: nat, j: nat): nat
    requires i <= j <= |bs|
  {
    if i == j then 0 else Count(bs, i, j - 1) + if bs[j - 1] then 1 else 0
  }

  function OwnFlags(acts: seq<Action>, t: nat): (own: seq<bool>)
    ensures |own| == |acts|
  {
    seq(|acts|, k requires 0 <= k < |acts| => Own(acts[k], t))
  }

  function OvertakenFlags(run: seq<State>, acts: seq<Action>, t: nat): (over: seq<bool>)
    requires |run| > |acts|
    ensures |over| == |acts|
  {
    seq(|acts|, k requires 0 <= k < |acts| => !Own(acts[k], t) && |run[k + 1].log| > |run[k].log|)
  }

  /** The thread's steps among the actions `i .. j - 1`. */
  function OwnSteps(acts: seq<Action>, t: nat, i: nat, j: nat): nat
    requires i <= j <= |acts|
  {
    Count(OwnFlags(acts, t), i, j)
  }

  /** The other threads' commits among them. */
  function Overtaken(run: seq<State>, acts: seq<Action>, t: nat, i: nat, j: nat): nat
    requires i <= j <= |acts| < |run|
  {
    Count(OvertakenFlags(run, acts, t), i, j)
  }

  /* How many steps a thread needs if nobody else commits. */

  // What another commit can cost: one more entry to scan, and one more copy.
  const DELAY: nat := 4100

  /** From the commit or validation on, `d` entries behind the end of the log. */
  function TryRank(d: nat): nat { if d == 0 then 2 else d + BLOCK_SIZE + 5 }

  function PcRank(pc: Pc, d: nat): nat
  {
    match pc
    case Idle => 0
    case Begun => 0
    case Ready => BLOCK_SIZE + 2 + TryRank(d)
    case Copy(next) => (if next <= BLOCK_SIZE then BLOCK_SIZE - next else 0) + 1 + TryRank(d)
    case Try => TryRank(d)
    case Scan(conflict) => if conflict || d > 0 then d + BLOCK_SIZE + 4 else 3
    case Recycle => 1
    case Done(_) => 1
  }

  /** The entries that it has not seen yet. */
  function Behind(s: State, t: nat): nat
  {
    if t < |s.threads| && s.threads[t].cursor <= |s.log| then |s.log| - s.threads[t].cursor else 0
  }

  function Rank(s: State, t: nat): nat
  {
    if t < |s.threads| then PcRank(s.threads[t].pc, Behind(s, t)) else 0
  }

  lemma RankBound(s: State, t: nat)
    ensures Rank(s, t) <= 2 * BLOCK_SIZE + 7 + Behind(s, t)
  {
  }

  /** A step of the thread itself ends its operation or lowers the rank. */
  lemma OwnStepLowers(s: State, a: Action, t: nat)
    requires Busy(s, t) && ThreadOk(s, s.threads[t]) && Enabled(s, a) && Own(a, t) && Busy(Do(s, a), t)
    ensures Rank(Do(s, a), t) < Rank(s, t)
  {
    var s', th := Do(s, a), s.threads[t];
    match a
    case Prepare(_) => assert s'.threads[t].pc == Copy(0);
    case CopyByte(_) => assert s'.threads[t].pc == Copy(th.pc.next + 1);
    case CopyEnd(_) => assert s'.threads[t].pc == Try;
    case TryCommit(_) =>
    case Validate(_) =>
    case ScanEntry(_) => assert s'.threads[t].cursor == th.cursor + 1;
    case ScanEnd(_) =>
    case _ =>
  }

  /** A step of somebody else leaves it alone, except for a commit. */
  lemma OtherStep(s: State, a: Action, t: nat)
    requires Busy(s, t) && ThreadOk(s, s.threads[t]) && Enabled(s, a) && !Own(a, t)
    ensures Busy(Do(s, a), t) && Do(s, a).threads[t] == s.threads[t]
    ensures Do(s, a).log == s.log ==> Rank(Do(s, a), t) == Rank(s, t)
    ensures Rank(Do(s, a), t) <= Rank(s, t) + DELAY
  {
    LogGrows(s, a);
    OtherThread(s, a, t);
    PcRankDelay(s.threads[t].pc, Behind(s, t), Behind(Do(s, a), t));
  }

  lemma OtherThread(s: State, a: Action, t: nat)
    requires t < |s.threads| && Enabled(s, a) && !Own(a, t)
    ensures t < |Do(s, a).threads| && Do(s, a).threads[t] == s.threads[t]
  {
  }

  /** One more entry to read costs at most one more copy. */
  lemma PcRankDelay(pc: Pc, d: nat, d': nat)
    requires d <= d' <= d + 1
    ensures PcRank(pc, d') <= PcRank(pc, d) + DELAY
  {
  }

  /** After its snapshot a thread can always take a step of its own. */
  lemma NeverStuck(run: seq<State>, i: nat, t: nat)
    requires Run(run) && i < |run| && Busy(run[i], t)
    ensures exists a: Action :: Own(a, t) && Enabled(run[i], a)
  {
    var o := RunInv(run, i);
    var s := run[i];
    assert ThreadOk(s, s.threads[t]);
    var a :=
      match s.threads[t].pc
      case Ready => Prepare(t)
      case Copy(next) => if next < BLOCK_SIZE then CopyByte(t) else CopyEnd(t)
      case Try => if s.threads[t].op.WriteBlock? then TryCommit(t) else Validate(t)
      case Scan(_) => if s.threads[t].cursor < |s.log| then ScanEntry(t) else ScanEnd(t)
      case Recycle => Release(t)
      case _ => Finish(t);
    assert Own(a, t) && Enabled(s, a);
  }

  /** It is busy all the time. */
  ghost predicate BusyAll(run: seq<State>, t: nat, i: nat, j: nat)
  {
    j < |run| && forall k: nat | i <= k <= j :: Busy(run[k], t)
  }

  lemma StepRank(run: seq<State>, acts: seq<Action>, t: nat, k: nat)
    requires Trace(run, acts) && k < |acts| && Busy(run[k], t) && Busy(run[k + 1], t)
    ensures Own(acts[k], t) ==> Rank(run[k + 1], t) + 1 <= Rank(run[k], t)
    ensures !Own(acts[k], t) ==>
              Rank(run[k + 1], t) <= Rank(run[k], t) + if |run[k + 1].log| > |run[k].log| then DELAY else 0
  {
    var s, a := run[k], acts[k];
    assert StepAt(run, acts, k);
    var o := RunInv(run, k);
    assert ThreadOk(s, s.threads[t]);
    if Own(a, t) {
      OwnStepLowers(s, a, t);
    } else {
      OtherStep(s, a, t);
      LogGrows(s, a);
    }
  }

  lemma {:induction false} RankSum(ranks: seq<nat>, own: seq<bool>, over: seq<bool>, i: nat, j: nat)
    requires i <= j <= |own| == |over| < |ranks|
    requires forall k | i <= k < j :: own[k] ==> ranks[k + 1] + 1 <= ranks[k]
    requires forall k | i <= k < j :: !own[k] ==> ranks[k + 1] <= ranks[k] + if over[k] then DELAY else 0
    ensures Count(own, i, j) + ranks[j] <= ranks[i] + DELAY * Count(over, i, j)
  {
    if i < j { RankSum(ranks, own, over, i, j - 1); }
  }

  lemma Progress(run: seq<State>, acts: seq<Action>, t: nat, i: nat, j: nat)
    requires Trace(run, acts) && i <= j <= |acts| && BusyAll(run, t, i, j)
    ensures OwnSteps(acts, t, i, j) + Rank(run[j], t) <= Rank(run[i], t) + DELAY * Overtaken(run, acts, t, i, j)
  {
    var ranks := seq(|run|, k requires 0 <= k < |run| => Rank(run[k], t));
    var own, over := OwnFlags(acts, t), OvertakenFlags(run, acts, t);
    forall k: nat | i <= k < j
      ensures own[k] ==> ranks[k + 1] + 1 <= ranks[k]
      ensures !own[k] ==> ranks[k + 1] <= ranks[k] + if over[k] then DELAY else 0
    {
      assert Busy(run[k], t) && Busy(run[k + 1], t);
      StepRank(run, acts, t, k);
    }
    RankSum(ranks, own, over, i, j);
  }

  /** There is a bound on the steps of an operation: it depends only on the entries
      that the thread was behind at first, and on how many commits of others
      succeeded in between. So if it takes more steps than it would take alone,
      somebody else has made progress. Until it is done it has a step to take. */
  lemma LockFree(run: seq<State>, acts: seq<Action>, t: nat, i: nat, j: nat)
    requires Trace(run, acts) && i <= j <= |acts| && BusyAll(run, t, i, j)
    ensures OwnSteps(acts, t, i, j) <=
              2 * BLOCK_SIZE + 7 + Behind(run[i], t) + DELAY * Overtaken(run, acts, t, i, j)
    ensures exists a: Action :: Own(a, t) && Enabled(run[j], a)
  {
    assert Busy(run[j], t);
    NeverStuck(run, j, t);
    Progress(run, acts, t, i, j);
    RankBound(run[i], t);
  }
}
