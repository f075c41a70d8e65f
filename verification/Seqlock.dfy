/** The version lock of the block table: one updater at a time changes table, size
    and cursor step by step, while callers without the lock copy the file state field
    by field and keep it only if the version did not move. */
module Seqlock {
  import opened Layout
  import opened Replay

  // Who holds the spinlock, and how far the replay is: at the entry at `pos`, where
  // `dirty` says that some of its cells have been written; at the end of the log; with
  // the cursor stored.
  datatype Updater =
    | Unlocked
    | Replaying(owner: nat, pos: nat, dirty: bool)
    | Ended(owner: nat, pos: nat)
    | Stored(owner: nat)

  // A call of `update`.
  datatype Caller =
    | Outside
    | Loaded(version: nat)                             // read an even version
    | HasCursor(version: nat, cursor: nat)             // copied the cursor
    | HasState(version: nat, cursor: nat, size: nat)   // copied the size, too
    | Kept(cursor: nat, size: nat)                     // the version has not moved
    | Waiting                                          // for the lock
    | Updating
    | Got(cursor: nat, size: nat)                      // the result

  datatype State = State(txs: seq<Tx>, table: map<nat, nat>, cursor: nat, size: nat, version: nat,
                         updater: Updater, callers: seq<Caller>)

  datatype Action =
    | Commit(tx: Tx)            // some thread appends to the log
    | LoadVersion(r: nat)       // the call begins
    | CopyCursor(r: nat)
    | CopySize(r: nat)
    | Check(r: nat)             // compare versions
    | Look(r: nat)              // is there an entry at the cursor?
    | Lock(r: nat)              // make the version odd
    | WriteCell(v: nat)         // one cell of the entry being replayed
    | RaiseSize                 // all cells written: raise the size, next entry
    | FindEnd                   // there is no next entry
    | StoreCursor
    | Unlock                    // make the version even
    | Return(r: nat)

  function Cell(table: map<nat, nat>, v: nat): nat { if v in table then table[v] else 0 }

  /** All cells of transaction `tx` have been written. */
  ghost predicate Written(table: map<nat, nat>, tx: Tx)
    requires TxOk(tx)
  {
    forall v: nat | Covers(tx, v) :: Cell(table, v) == UnderTx(tx, v, 0)
  }

  /** The updater is at an entry. */
  ghost predicate AtEntry(s: State)
  {
    s.updater.Replaying? && s.updater.pos < |s.txs| && TxOk(s.txs[s.updater.pos])
  }

  ghost predicate Enabled(s: State, a: Action)
  {
    match a
    case Commit(tx) => TxOk(tx)
    case LoadVersion(r) => r < |s.callers| && s.callers[r].Outside?
    case CopyCursor(r) => r < |s.callers| && s.callers[r].Loaded?
    case CopySize(r) => r < |s.callers| && s.callers[r].HasCursor?
    case Check(r) => r < |s.callers| && s.callers[r].HasState?
    case Look(r) => r < |s.callers| && s.callers[r].Kept?
    case Lock(r) => r < |s.callers| && s.callers[r].Waiting? && s.updater.Unlocked?
    case WriteCell(v) => AtEntry(s) && Covers(s.txs[s.updater.pos], v)
    case RaiseSize => AtEntry(s) && Written(s.table, s.txs[s.updater.pos])
    case FindEnd => s.updater.Replaying? && !s.updater.dirty && s.updater.pos == |s.txs|
    case StoreCursor => s.updater.Ended?
    case Unlock => s.updater.Stored? && s.updater.owner < |s.callers|
    case Return(r) => r < |s.callers| && s.callers[r].Got?
  }

  function Put(s: State, r: nat, c: Caller): State
    requires r < |s.callers|
  {
    s.(callers := s.callers[r := c])
  }

  ghost function Do(s: State, a: Action): State
    requires Enabled(s, a)
  {
    match a
    case Commit(tx) => s.(txs := s.txs + [tx])
    case LoadVersion(r) => Put(s, r, if s.version % 2 == 1 then Waiting else Loaded(s.version))
    case CopyCursor(r) => Put(s, r, HasCursor(s.callers[r].version, s.cursor))
    case CopySize(r) => Put(s, r, HasState(s.callers[r].version, s.callers[r].cursor, s.size))
    case Check(r) =>
      var c := s.callers[r];
      Put(s, r, if c.version == s.version then Kept(c.cursor, c.size) else Waiting)
    case Look(r) =>
      var c := s.callers[r];
      Put(s, r, if c.cursor < |s.txs| then Waiting else Got(c.cursor, c.size))
    case Lock(r) =>
      Put(s, r, Updating).(version := s.version + 1, updater := Replaying(r, s.cursor, false))
    case WriteCell(v) =>
      s.(table := s.table[v := UnderTx(s.txs[s.updater.pos], v, 0)],
         updater := Replaying(s.updater.owner, s.updater.pos, true))
    case RaiseSize =>
      s.(size := Grow(s.size, TxEnd(s.txs[s.updater.pos])),
         updater := Replaying(s.updater.owner, s.updater.pos + 1, false))
    case FindEnd => s.(updater := Ended(s.updater.owner, s.updater.pos))
    case StoreCursor => s.(cursor := s.updater.pos, updater := Stored(s.updater.owner))
    case Unlock => Put(s, s.updater.owner, Got(s.cursor, s.size)).(version := s.version + 1, updater := Unlocked)
    case Return(r) => Put(s, r, Outside)
  }

  ghost predicate Init(s: State)
  {
    && s.txs == [] && s.table == map[] && s.cursor == 0 && s.size == 0 && s.version == 0 && s.updater == Unlocked
    && (forall r | 0 <= r < |s.callers| :: s.callers[r].Outside?)
  }

  ghost predicate StepAt(run: seq<State>, acts: seq<Action>, k: nat)
  {
    k < |acts| < |run| && Enabled(run[k], acts[k]) && run[k + 1] == Do(run[k], acts[k])
  }

  /** A run with the action of each step. */
  ghost predicate Run(run: seq<State>, acts: seq<Action>)
  {
    |run| == |acts| + 1 && Init(run[0]) && forall k | 0 <= k < |acts| :: StepAt(run, acts, k)
  }

  /* The invariant. */

  /** The table is the replay of the first `n` entries. */
  ghost predicate TableIs(txs: seq<Tx>, table: map<nat, nat>, n: nat)
  {
    n <= |txs| && HistoryOk(txs) && forall v: nat :: Cell(table, v) == Lookup(txs[..n], v)
  }

  /** ... where some cells may already be those of the next entry. */
  ghost predicate TableBetween(txs: seq<Tx>, table: map<nat, nat>, n: nat)
  {
    && n < |txs| && HistoryOk(txs)
    && forall v: nat ::
         || Cell(table, v) == Lookup(txs[..n], v)
         || (Covers(txs[n], v) && Cell(table, v) == UnderTx(txs[n], v, 0))
  }

  /** The file state is that of the first `n` entries. */
  ghost predicate StateIs(s: State, n: nat)
    requires HistoryOk(s.txs)
  {
    TableIs(s.txs, s.table, n) && s.size == SizeOf(s.txs[..n])
  }

  ghost predicate UpdaterOk(s: State)
    requires HistoryOk(s.txs)
  {
    match s.updater
    case Unlocked => s.version % 2 == 0 && StateIs(s, s.cursor)
    case Stored(_) => s.version % 2 == 1 && StateIs(s, s.cursor)
    case Ended(_, pos) => s.version % 2 == 1 && s.cursor <= pos && StateIs(s, pos)
    case Replaying(_, pos, dirty) =>
      && s.version % 2 == 1 && s.cursor <= pos <= |s.txs| && s.size == SizeOf(s.txs[..pos])
      && (if dirty then TableBetween(s.txs, s.table, pos) else TableIs(s.txs, s.table, pos))
  }

  /** What a caller has copied is current if the version has not moved. */
  ghost predicate CallerOk(s: State, c: Caller)
  {
    match c
    case Loaded(ver) => ver % 2 == 0 && ver <= s.version
    case HasCursor(ver, n) => ver % 2 == 0 && ver <= s.version && (ver == s.version ==> n == s.cursor)
    case HasState(ver, n, f) => ver % 2 == 0 && ver <= s.version && (ver == s.version ==> n == s.cursor && f == s.size)
    case _ => true
  }

  ghost predicate Inv(s: State)
  {
    && HistoryOk(s.txs) && s.cursor <= |s.txs| && UpdaterOk(s)
    && (forall r | 0 <= r < |s.callers| :: CallerOk(s, s.callers[r]))
    && (forall r | 0 <= r < |s.callers| && s.callers[r].Updating? :: !s.updater.Unlocked? && s.updater.owner == r)
    && (!s.updater.Unlocked? ==> s.updater.owner < |s.callers| && s.callers[s.updater.owner].Updating?)
  }

  lemma CommitStep(s: State, tx: Tx)
    requires Inv(s) && TxOk(tx)
    ensures Inv(Do(s, Commit(tx)))
  {
    var s' := Do(s, Commit(tx));
    forall r | 0 <= r < |s'.callers| ensures CallerOk(s', s'.callers[r]) { assert CallerOk(s, s.callers[r]); }
    forall n: nat | n <= |s.txs| ensures s'.txs[..n] == s.txs[..n] {}
  }

  lemma CellStep(s: State, v: nat)
    requires Inv(s) && Enabled(s, WriteCell(v))
    ensures Inv(Do(s, WriteCell(v)))
  {
    var s' := Do(s, WriteCell(v));
    forall r | 0 <= r < |s'.callers| ensures CallerOk(s', s'.callers[r]) { assert CallerOk(s, s.callers[r]); }
  }

  lemma SizeStep(s: State)
    requires Inv(s) && Enabled(s, RaiseSize)
    ensures Inv(Do(s, RaiseSize))
  {
    var s', n, tx := Do(s, RaiseSize), s.updater.pos, s.txs[s.updater.pos];
    assert s.txs[..n + 1] == s.txs[..n] + [tx];
    forall v: nat ensures Cell(s.table, v) == Lookup(s.txs[..n + 1], v) {
      LookupAppend(s.txs[..n], tx, v);
      TxDecides(tx, v, Lookup(s.txs[..n], v), 0);
    }
    LookupAppend(s.txs[..n], tx, 0);
    forall r | 0 <= r < |s'.callers| ensures CallerOk(s', s'.callers[r]) { assert CallerOk(s, s.callers[r]); }
  }

  /** A step that changes one caller only. */
  lemma CallerStep(s: State, r: nat, c: Caller)
    requires Inv(s) && r < |s.callers| && !s.callers[r].Updating? && !c.Updating? && CallerOk(s, c)
    ensures Inv(Put(s, r, c))
  {
    var s' := Put(s, r, c);
    forall q | 0 <= q < |s'.callers| ensures CallerOk(s', s'.callers[q]) { assert CallerOk(s, s.callers[q]); }
  }

  /** A step that takes, passes on or gives back the lock. */
  lemma LockStep(s: State, a: Action)
    requires Inv(s) && Enabled(s, a) && (a.Lock? || a.FindEnd? || a.StoreCursor? || a.Unlock?)
    ensures Inv(Do(s, a))
  {
    var s' := Do(s, a);
    forall q | 0 <= q < |s'.callers| ensures CallerOk(s', s'.callers[q]) { assert CallerOk(s, s.callers[q]); }
  }

  lemma StepInv(s: State, a: Action)
    requires Inv(s) && Enabled(s, a)
    ensures Inv(Do(s, a)) && s.cursor <= Do(s, a).cursor && s.version <= Do(s, a).version
    ensures s.txs <= Do(s, a).txs
  {
    match a
    case Commit(tx) => CommitStep(s, tx);
    case WriteCell(v) => CellStep(s, v);
    case RaiseSize => SizeStep(s);
    case Lock(_) => LockStep(s, a);
    case FindEnd => LockStep(s, a);
    case StoreCursor => LockStep(s, a);
    case Unlock => LockStep(s, a);
    case _ =>
      assert CallerOk(s, s.callers[a.r]);
      CallerStep(s, a.r, Do(s, a).callers[a.r]);
  }

  lemma {:induction false} RunInv(run: seq<State>, acts: seq<Action>, i: nat)
    requires Run(run, acts) && i < |run|
    ensures Inv(run[i])
  {
    if i == 0 {
      assert run[0].txs[..0] == [];
    } else {
      RunInv(run, acts, i - 1);
      assert StepAt(run, acts, i - 1);
      StepInv(run[i - 1], acts[i - 1]);
    }
  }

  lemma {:induction false} RunMono(run: seq<State>, acts: seq<Action>, i: nat, k: nat)
    requires Run(run, acts) && i <= k < |run|
    ensures run[i].cursor <= run[k].cursor && run[i].txs <= run[k].txs
    decreases k - i
  {
    if i < k {
      RunMono(run, acts, i, k - 1);
      RunInv(run, acts, k - 1);
      assert StepAt(run, acts, k - 1);
      StepInv(run[k - 1], acts[k - 1]);
    }
  }

  /* What a call gets. */

  /** Step `j` begins a call by `r`, which begins no other before step `i`. */
  ghost predicate Called(acts: seq<Action>, r: nat, j: nat, i: nat)
  {
    j < i <= |acts| && acts[j] == LoadVersion(r) && forall k | j < k < i :: acts[k] != LoadVersion(r)
  }

  /** Cursor and size of the file state are `c` and `f`, and table and size are the
      replay of exactly the entries before `c`. */
  ghost predicate Whole(s: State, c: nat, f: nat)
  {
    HistoryOk(s.txs) && s.cursor == c && s.size == f && StateIs(s, c)
  }

  /** What the call has found out by now is not older than `n` entries. */
  predicate FreshAs(s: State, r: nat, n: nat)
  {
    && r < |s.callers| && n <= |s.txs|
    && match s.callers[r]
       case Got(c, _) => n <= c
       case Updating => (s.updater.Ended? ==> n <= s.updater.pos) && (s.updater.Stored? ==> n <= s.cursor)
       case _ => true
  }

  lemma FreshStep(s: State, a: Action, r: nat, n: nat)
    requires Inv(s) && Enabled(s, a) && FreshAs(s, r, n)
    ensures FreshAs(Do(s, a), r, n)
  {
  }

  lemma {:induction false} StaysFresh(run: seq<State>, acts: seq<Action>, r: nat, j: nat, i: nat)
    requires Run(run, acts) && Called(acts, r, j, i)
    ensures FreshAs(run[i], r, |run[j].txs|)
  {
    assert StepAt(run, acts, i - 1);
    if j < i - 1 {
      StaysFresh(run, acts, r, j, i - 1);
      RunInv(run, acts, i - 1);
      FreshStep(run[i - 1], acts[i - 1], r, |run[j].txs|);
    }
  }

  /** The state that the caller has kept or got, if any, was current in state `s`. */
  ghost predicate HadFrom(s: State, c: Caller)
  {
    c.Kept? || c.Got? ==> Whole(s, c.cursor, c.size)
  }

  /** A caller gets a state that it has kept, or that is current. */
  lemma GetsWhole(s: State, a: Action, r: nat)
    requires Inv(s) && Enabled(s, a) && r < |s.callers|
    ensures var was, c := s.callers[r], Do(s, a).callers[r];
            HadFrom(s, c) || c == was || (was.Kept? && c == Got(was.cursor, was.size))
  {
    assert CallerOk(s, s.callers[r]);
  }

  lemma {:induction false} CameFrom(run: seq<State>, acts: seq<Action>, r: nat, j: nat, i: nat) returns (m: nat)
    requires Run(run, acts) && Called(acts, r, j, i)
    ensures j <= m <= i && r < |run[i].callers| && HadFrom(run[m], run[i].callers[r])
  {
    assert StepAt(run, acts, i - 1);
    if i - 1 == j {
      m := j;
    } else {
      m := CameFrom(run, acts, r, j, i - 1);
      RunInv(run, acts, i - 1);
      GetsWhole(run[i - 1], acts[i - 1], r);
      if HadFrom(run[i - 1], run[i].callers[r]) { m := i - 1; }
    }
  }

  /** The result of a call is the file state of a moment during the call, as a whole: at
      that moment table and size are the replay of exactly the entries before its
      cursor. It has everything that was committed before the call. */
  lemma UpdateReturns(run: seq<State>, acts: seq<Action>, r: nat, j: nat, i: nat) returns (m: nat)
    requires Run(run, acts) && Called(acts, r, j, i) && r < |run[i].callers| && run[i].callers[r].Got?
    ensures j <= m <= i && Whole(run[m], run[i].callers[r].cursor, run[i].callers[r].size)
    ensures |run[j].txs| <= run[i].callers[r].cursor <= |run[m].txs|
  {
    m := CameFrom(run, acts, r, j, i);
    StaysFresh(run, acts, r, j, i);
  }

  predicate InCall(s: State, r: nat) { r < |s.callers| && !s.callers[r].Outside? }

  /** A call does not end without a result. */
  lemma UpdateEnds(run: seq<State>, acts: seq<Action>, r: nat, i: nat)
    requires Run(run, acts) && i < |acts| && InCall(run[i], r) && !InCall(run[i + 1], r)
    ensures acts[i] == Return(r) && run[i].callers[r].Got?
  {
    assert StepAt(run, acts, i);
    RunInv(run, acts, i);
  }

  /** From then on the table never loses an entry: each of its cells is that of a
      replay of at least the entries before that cursor. */
  lemma {:induction false} NeverBehind(run: seq<State>, acts: seq<Action>, r: nat, j: nat, i: nat, k: nat, v: nat)
    requires Run(run, acts) && Called(acts, r, j, i) && r < |run[i].callers| && run[i].callers[r].Got? && i <= k < |run|
    ensures HistoryOk(run[k].txs)
    ensures exists n: nat ::
        run[i].callers[r].cursor <= n <= |run[k].txs| && Cell(run[k].table, v) == Lookup(run[k].txs[..n], v)
  {
    var m := UpdateReturns(run, acts, r, j, i);
    RunInv(run, acts, k);
    RunMono(run, acts, m, k);
    var s := run[k];
    var n := if s.updater.Replaying? || s.updater.Ended? then s.updater.pos else s.cursor;
    if Cell(s.table, v) != Lookup(s.txs[..n], v) {
      var tx := s.txs[n];
      assert s.txs[..n + 1] == s.txs[..n] + [tx];
      LookupAppend(s.txs[..n], tx, v);
      TxDecides(tx, v, Lookup(s.txs[..n], v), 0);
      assert Cell(s.table, v) == Lookup(s.txs[..n + 1], v);
    }
  }

  /** The log is what was committed, in order. */
  function Committed(acts: seq<Action>, i: nat): seq<Tx>
    requires i <= |acts|
  {
    if i == 0 then [] else Committed(acts, i - 1) + if acts[i - 1].Commit? then [acts[i - 1].tx] else []
  }

  lemma {:induction false} LogIsCommitted(run: seq<State>, acts: seq<Action>, i: nat)
    requires Run(run, acts) && i < |run|
    ensures run[i].txs == Committed(acts, i)
  {
    if i > 0 {
      LogIsCommitted(run, acts, i - 1);
      assert StepAt(run, acts, i - 1);
    }
  }

  /* Who needs the lock. */

  /** The call of `r` has not gone for the lock, and has found nothing new. */
  predicate StaysOut(s: State, r: nat, version: nat)
  {
    && r < |s.callers| && s.version == version && s.updater.Unlocked? && s.cursor == |s.txs|
    && match s.callers[r]
       case Loaded(ver) => ver == version
       case HasCursor(ver, c) => ver == version && c == s.cursor
       case HasState(ver, c, _) => ver == version && c == s.cursor
       case Kept(c, _) => c == s.cursor
       case Waiting => false
       case Updating => false
       case _ => true
  }

  lemma StaysOutStep(s: State, a: Action, r: nat, version: nat)
    requires Enabled(s, a) && StaysOut(s, r, version) && version % 2 == 0 && !a.Lock? && !a.Commit?
    ensures StaysOut(Do(s, a), r, version)
  {
  }

  /** A call does not take the lock if, when it begins, nobody has the lock and the
      table is up to date, and until it returns nobody takes it and nothing is committed. */
  lemma {:induction false} NoLockNeeded(run: seq<State>, acts: seq<Action>, r: nat, j: nat, i: nat)
    requires Run(run, acts) && Called(acts, r, j, i) && run[j].updater.Unlocked? && run[j].cursor == |run[j].txs|
    requires forall k | j <= k < i :: !(acts[k].Lock? && acts[k].r != r) && !acts[k].Commit?
    ensures StaysOut(run[i], r, run[j].version) && (j < i - 1 ==> acts[i - 1] != Lock(r))
  {
    RunInv(run, acts, j);
    assert StepAt(run, acts, i - 1);
    if j < i - 1 {
      NoLockNeeded(run, acts, r, j, i - 1);
      StaysOutStep(run[i - 1], acts[i - 1], r, run[j].version);
    }
  }

  predicate ByUpdater(a: Action) { a.WriteCell? || a.RaiseSize? || a.FindEnd? || a.StoreCursor? || a.Unlock? }

  /** The cell of `v` does not yet show the entry that is being replayed. */
  ghost predicate Stale(s: State, v: nat)
    requires AtEntry(s)
  {
    Covers(s.txs[s.updater.pos], v) && Cell(s.table, v) != UnderTx(s.txs[s.updater.pos], v, 0)
  }

  /** The steps that the holder has left, except for cells, if nothing is committed. */
  function UpdaterRank(s: State): nat
  {
    match s.updater
    case Unlocked => 0
    case Stored(_) => 1
    case Ended(_, _) => 2
    case Replaying(_, pos, _) => 3 + if pos < |s.txs| then |s.txs| - pos else 0
  }

  /** The holder of the lock always has a step to take that brings it nearer to the end.
      If it is to write a cell, that one is stale and no longer is after that, and no
      other becomes stale. */
  lemma UpdaterNeverStuck(run: seq<State>, acts: seq<Action>, i: nat) returns (a: Action)
    requires Run(run, acts) && i < |run| && !run[i].updater.Unlocked?
    ensures ByUpdater(a) && Enabled(run[i], a)
    ensures !a.WriteCell? ==> UpdaterRank(Do(run[i], a)) < UpdaterRank(run[i])
    ensures a.WriteCell? ==> AtEntry(Do(run[i], a)) && Stale(run[i], a.v) && !Stale(Do(run[i], a), a.v)
    ensures a.WriteCell? ==> forall v: nat | Stale(Do(run[i], a), v) :: Stale(run[i], v)
  {
    RunInv(run, acts, i);
    var s := run[i];
    match s.updater
    case Stored(_) => a := Unlock;
    case Ended(_, _) => a := StoreCursor;
    case Replaying(_, pos, dirty) =>
      if pos == |s.txs| {
        a := FindEnd;
      } else if v: nat :| Stale(s, v) {
        a := WriteCell(v);
      } else {
        assert Written(s.table, s.txs[pos]) by {
          forall v: nat | Covers(s.txs[pos], v) ensures Cell(s.table, v) == UnderTx(s.txs[pos], v, 0) {
            assert !Stale(s, v);
          }
        }
        a := RaiseSize;
      }
  }
}
