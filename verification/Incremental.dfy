/** Incremental replay equals full replay: a table that is the replay of the
    entries before its cursor stays so while the log grows, so that catching up
    from the cursor gives the replay of the whole log. */
module Incremental {
  import opened Layout
  import opened Entry
  import opened Replay
  import opened LogChain
  import opened TxLog
  import opened TxLogSafety
  import opened BlkTable

  /* Reading a chain of log entries is deterministic. */

  lemma SameEntry(mem: Mem, nd: Node, e1: LogEntry, n1: Option<Node>, e2: LogEntry, n2: Option<Node>)
    requires EntryAt(mem, nd, e1, n1) && EntryAt(mem, nd, e2, n2)
    ensures e1 == e2 && n1 == n2
  {
    assert |e1.lidxs| == |e2.lidxs|;
    forall j | 0 <= j < |e1.lidxs| ensures e1.lidxs[j] == e2.lidxs[j] {
      assert mem[nd.block][nd.at + FIXED_WORDS + j] == Word(e1.lidxs[j]);
    }
  }

  lemma {:induction false} SamePrefix(mem: Mem, p1: seq<Node>, es1: seq<LogEntry>, p2: seq<Node>, es2: seq<LogEntry>,
                                      i: nat)
    requires ChainAt(mem, p1, es1) && ChainAt(mem, p2, es2) && p1[0] == p2[0] && i < |p1|
    ensures i < |p2| && p1[i] == p2[i] && es1[i] == es2[i] && (i + 1 < |p1| <==> i + 1 < |p2|)
  {
    if i > 0 {
      SamePrefix(mem, p1, es1, p2, es2, i - 1);
      assert EntryAt(mem, p1[i - 1], es1[i - 1], NextOf(p1, i - 1))
          && EntryAt(mem, p2[i - 1], es2[i - 1], NextOf(p2, i - 1));
      SameEntry(mem, p1[i - 1], es1[i - 1], NextOf(p1, i - 1), es2[i - 1], NextOf(p2, i - 1));
    }
    assert EntryAt(mem, p1[i], es1[i], NextOf(p1, i)) && EntryAt(mem, p2[i], es2[i], NextOf(p2, i));
    SameEntry(mem, p1[i], es1[i], NextOf(p1, i), es2[i], NextOf(p2, i));
  }

  lemma SameMeaning(mem: Mem, e: TxEntry, p1: seq<Node>, tx1: Tx, p2: seq<Node>, tx2: Tx)
    requires Means(mem, e, p1, tx1) && Means(mem, e, p2, tx2)
    ensures p1 == p2 && tx1 == tx2
  {
    if e.Indirect? {
      var es1, es2 := tx1.entries, tx2.entries;
      SamePrefix(mem, p1, es1, p2, es2, |p1| - 1);
      forall i | 0 <= i < |p1| ensures p1[i] == p2[i] && es1[i] == es2[i] { SamePrefix(mem, p1, es1, p2, es2, i); }
    }
  }

  /* A cursor stays where it is. */

  lemma CursorKept(run: seq<State>, i: nat, k: nat, chain: seq<nat>, chain': seq<nat>, c: Cursor)
    requires Run(run) && i <= k < |run| && Inv(run[i], chain) && Inv(run[k], chain')
    requires CursorOk(run[i].blocks, chain, c)
    ensures CursorOk(run[k].blocks, chain', c)
    ensures Pos(run[k].blocks, chain', c) == Pos(run[i].blocks, chain, c)
  {
    var b, b' := run[i].blocks, run[k].blocks;
    AppendOnly(run, i, k, chain, chain');
    var n := b[c.block].txSeq;
    assert NodeOk(b, chain[n], n) && Kept(b, b', chain[n]);
    FilledGrows(b[c.block].slots, b'[c.block].slots);
    forall m | 0 <= m < |chain| - 1 ensures SlotsOf(b', chain[m]) == SlotsOf(b, chain[m]) {
      assert NodeOk(b, chain[m], m) && LinkOk(b, chain[m], chain[m + 1]) && Kept(b, b', chain[m]);
      FilledGrows(b[chain[m]].slots, b'[chain[m]].slots);
    }
    PosFrame(b, chain, b', chain', c);
  }

  /* Main results. */

  /** Between two states of a run the transactions that the log stands for only
      gain members at the end, if log entries in use are left alone. */
  lemma HistoryGrows(run: seq<State>, i: nat, k: nat, mem: Mem, h: Hist, mem': Mem, h': Hist)
    requires Run(run) && i <= k < |run| && Inv(run[i], h.chain) && Inv(run[k], h'.chain)
    requires LogOk(run[i].blocks, mem, h) && LogOk(run[k].blocks, mem', h')
    requires LogMeans(mem', Log(run[i].blocks, h.chain), h.paths, h.txs)
    ensures h.txs <= h'.txs
  {
    AppendOnly(run, i, k, h.chain, h'.chain);
    var log, log' := Log(run[i].blocks, h.chain), Log(run[k].blocks, h'.chain);
    forall n | 0 <= n < |log| ensures h.txs[n] == h'.txs[n] {
      assert Means(mem', log[n], h.paths[n], h.txs[n]) && Means(mem', log'[n], h'.paths[n], h'.txs[n]);
      SameMeaning(mem', log[n], h.paths[n], h.txs[n], h'.paths[n], h'.txs[n]);
    }
  }

  /** The table of an earlier state is still the replay of the entries before its
      cursor, however the log has grown since, with new blocks linked and with a
      cursor left in the overflow state. */
  lemma StaysUpTo(run: seq<State>, i: nat, k: nat, mem: Mem, h: Hist, mem': Mem, h': Hist, c: Cursor,
                  table: seq<nat>, size: nat)
    requires Run(run) && i <= k < |run| && Inv(run[i], h.chain) && Inv(run[k], h'.chain)
    requires LogOk(run[i].blocks, mem, h) && LogOk(run[k].blocks, mem', h')
    requires LogMeans(mem', Log(run[i].blocks, h.chain), h.paths, h.txs)
    requires UpTo(run[i].blocks, h, c, table, size)
    ensures UpTo(run[k].blocks, h', c, table, size)
  {
    HistoryGrows(run, i, k, mem, h, mem', h');
    CursorKept(run, i, k, h.chain, h'.chain, c);
    var p := Pos(run[i].blocks, h.chain, c);
    assert h'.txs[..p] == h.txs[..p];
  }

  /** Two tables brought up to date at the same state agree with each other, in
      whatever instalments each of them replayed the log. */
  lemma {:induction false} AnyInstalments(blocks: map<nat, TxBlock>, mem: Mem, h1: Hist, h2: Hist, c1: Cursor,
                                          table1: seq<nat>, size1: nat, c2: Cursor, table2: seq<nat>, size2: nat,
                                          v: nat)
    requires LogOk(blocks, mem, h1) && LogOk(blocks, mem, h2)
    requires UpTo(blocks, h1, c1, table1, size1) && Pos(blocks, h1.chain, c1) == |h1.txs|
    requires UpTo(blocks, h2, c2, table2, size2) && Pos(blocks, h2.chain, c2) == |h2.txs|
    ensures size1 == size2 == SizeOf(h1.txs) && At(table1, v) == At(table2, v) == Lookup(h1.txs, v)
  {
    SameChain(blocks, h1.chain, h2.chain);
    var log := Log(blocks, h1.chain);
    forall n | 0 <= n < |log| ensures h1.txs[n] == h2.txs[n] {
      assert Means(mem, log[n], h1.paths[n], h1.txs[n]) && Means(mem, log[n], h2.paths[n], h2.txs[n]);
      SameMeaning(mem, log[n], h1.paths[n], h1.txs[n], h2.paths[n], h2.txs[n]);
    }
    assert h1.txs == h2.txs && h1.txs[..|h1.txs|] == h1.txs;
  }
}
