/** Progress of the slot list: a thread that goes on comes to the end of the log and
    appends there; only appends of others can delay it. */
module TxLogProgress {
  import opened Layout
  import opened Entry
  import opened TxLog
  import opened TxLogSafety

  predicate Overflowed(th: Thread) { th.cursor.local >= Cap(th.cursor.block) }

  /** The steps to the next slot: along a link that exists, or one that is to be made. */
  function Phase(s: State, th: Thread): nat
  {
    if th.linking != 0 then 1
    else if !Overflowed(th) then 0
    else if th.cursor.block in s.blocks && s.blocks[th.cursor.block].next != 0 then 1
    else 2
  }

  /** How many entries are at the cursor and behind it. */
  ghost function Behind(s: State, chain: seq<nat>, t: nat): nat
    requires Inv(s, chain) && t < |s.threads|
  {
    var x := ViewOf(s, chain);
    if x.pos[t] < |x.log| then |x.log| - x.pos[t] else 0
  }

  /** At most three steps for every entry: over it, and into a new block. */
  ghost function Rank(s: State, chain: seq<nat>, t: nat): nat
    requires Inv(s, chain) && t < |s.threads|
  {
    3 * Behind(s, chain, t) + Phase(s, s.threads[t])
  }

  predicate Moves(a: Action) { a.Advance? || a.Follow? || a.Take? || a.Link? }

  lemma PhaseLowers(s: State, chain: seq<nat>, a: Action)
    requires Inv(s, chain) && Enabled(s, a) && Moves(a) && !a.Advance?
    ensures a.t < |Do(s, a).threads| && Phase(Do(s, a), Do(s, a).threads[a.t]) < Phase(s, s.threads[a.t])
  {
    var th := s.threads[a.t];
    assert ThreadOk(s, chain, th);
    CapIsReached(s.blocks, chain, th.cursor);
    if a.Take? { TakeKeeps(s, chain, a.t, a.b); }
  }

  /** Every step of the thread towards the end of the log lowers the rank. */
  lemma MoveLowers(s: State, chain: seq<nat>, a: Action, chain': seq<nat>)
    requires Inv(s, chain) && Enabled(s, a) && Moves(a) && Inv(Do(s, a), chain')
    ensures a.t < |Do(s, a).threads| && Rank(Do(s, a), chain', a.t) < Rank(s, chain, a.t)
  {
    Simulation(s, chain, a, chain');
    if !a.Advance? { PhaseLowers(s, chain, a); }
  }

  /** Other threads' steps leave it alone, except for an append, which costs three. */
  lemma OthersDelay(s: State, chain: seq<nat>, a: Action, chain': seq<nat>, t: nat)
    requires Inv(s, chain) && Enabled(s, a) && a.t != t && t < |s.threads| && Inv(Do(s, a), chain')
    ensures t < |Do(s, a).threads|
    ensures Rank(Do(s, a), chain', t) <= Rank(s, chain, t) + if a.Append? then 3 else 0
  {
    OthersBehind(s, chain, a, chain', t);
    OthersPhase(s, chain, a, t);
  }

  lemma OthersBehind(s: State, chain: seq<nat>, a: Action, chain': seq<nat>, t: nat)
    requires Inv(s, chain) && Enabled(s, a) && a.t != t && t < |s.threads| && Inv(Do(s, a), chain')
    ensures t < |Do(s, a).threads|
    ensures Behind(Do(s, a), chain', t) <= Behind(s, chain, t) + if a.Append? then 1 else 0
  {
    Simulation(s, chain, a, chain');
  }

  lemma OthersPhase(s: State, chain: seq<nat>, a: Action, t: nat)
    requires Inv(s, chain) && Enabled(s, a) && a.t != t && t < |s.threads|
    ensures t < |Do(s, a).threads| && Phase(Do(s, a), Do(s, a).threads[t]) <= Phase(s, s.threads[t])
  {
    var n := s.blocks[s.threads[t].cursor.block].txSeq;
    assert ThreadOk(s, chain, s.threads[t]);
    StepFrame(s, chain, a, n);
  }

  /** A thread that has a spare block, or finds one, always has a step to take: it moves
      on, or it is at the end of the log and its entry is appended. */
  lemma NeverStuck(s: State, chain: seq<nat>, t: nat, e: TxEntry) returns (a: Action)
    requires Inv(s, chain) && t < |s.threads| && (s.threads[t].spare != 0 || s.pool != {})
    ensures a.t == t && Enabled(s, a) && (Moves(a) || a == Append(t, e))
    ensures a.Append? ==> IsChain(Do(s, a).blocks, chain) && Log(Do(s, a).blocks, chain) == Log(s.blocks, chain) + [e]
  {
    var th := s.threads[t];
    assert ThreadOk(s, chain, th);
    var n := s.blocks[th.cursor.block].txSeq;
    assert NodeOk(s.blocks, chain[n], n);
    if th.linking != 0 {
      a := Link(t);
    } else if Overflowed(th) {
      if s.blocks[th.cursor.block].next != 0 {
        a := Follow(t);
      } else if th.spare != 0 {
        a := Take(t, th.spare);
      } else {
        var b :| b in s.pool;
        a := Take(t, b);
      }
    } else if s.blocks[th.cursor.block].slots[th.cursor.local].Some? {
      a := Advance(t);
    } else {
      a := Append(t, e);
      AppendStep(s, chain, t, e);
    }
  }
}
