/** Who holds which block: the shared bitmap and a thread's free lists. Every
    contract counts, for every block, how often it is held, so that a block that
    is lost or handed out twice breaks an equation. */
module Alloc {
  import opened Layout
  import opened Entry

  // A bitmap word, lowest bit first; a set bit is an allocated block.
  type Word = w: seq<bool> | |w| == CHUNK witness seq(CHUNK, _ => true)

  const ALL_USED: Word := seq(CHUNK, _ => true)

  /* Counting. */

  /** Whether block `x` is one of `start .. start + n - 1`. */
  function In(start: nat, n: nat, x: nat): nat { if start <= x < start + n then 1 else 0 }

  /** Whether `x` is the block of one of the first `k` clear bits positions of a
      word whose first bit is block `base`. */
  function ClearIn(word: Word, base: nat, k: nat, x: nat): nat
  {
    if base <= x < base + k && x < base + CHUNK && !word[x - base] then 1 else 0
  }

  function BitmapCount(entries: seq<Word>, x: nat): nat
  {
    if x / CHUNK < |entries| && !entries[x / CHUNK][x % CHUNK] then 1 else 0
  }

  /** How many runs of length `n` at `starts` contain `x`. */
  function ListCount(starts: seq<nat>, n: nat, x: nat): nat
  {
    if starts == [] then 0 else ListCount(starts[..|starts| - 1], n, x) + In(starts[|starts| - 1], n, x)
  }

  /** How often `x` occurs in the first `k` free lists; list `n - 1` holds runs of
      length `n`. */
  function ListsCount(lists: seq<seq<nat>>, k: nat, x: nat): nat
    requires k <= |lists|
  {
    if k == 0 then 0 else ListsCount(lists, k - 1, x) + ListCount(lists[k - 1], k, x)
  }

  lemma {:induction false} ListsPut(lists: seq<seq<nat>>, i: nat, list: seq<nat>, k: nat, x: nat)
    requires i < |lists| && k <= |lists|
    ensures ListsCount(lists[i := list], k, x)
         == ListsCount(lists, k, x) + if i < k then ListCount(list, i + 1, x) - ListCount(lists[i], i + 1, x) else 0
  {
    if k > 0 { ListsPut(lists, i, list, k - 1, x); }
  }

  /* Bit scanning. */

  /** The number of trailing set (`bit`) or clear (`!bit`) bits. */
  function Trailing(bits: seq<bool>, bit: bool): (k: nat)
    ensures k <= |bits| && (forall i | 0 <= i < k :: bits[i] == bit)
    ensures k < |bits| ==> bits[k] != bit
  {
    if bits == [] || bits[0] != bit then 0 else 1 + Trailing(bits[1..], bit)
  }

  /** A logical right shift. */
  function Shift(bits: Word, k: nat): Word
    requires k <= CHUNK
  {
    bits[k..] + seq(k, _ => false)
  }

  ghost predicate All(word: Word, lo: nat, hi: nat, bit: bool)
  {
    hi <= CHUNK && forall i | lo <= i < hi :: word[i] == bit
  }

  /** `n` clear bits from bit `s` on. */
  ghost predicate Window(word: Word, s: nat, n: nat)
  {
    s + n <= CHUNK && forall i | s <= i < s + n :: !word[i]
  }

  /** Block `x` is in the run and in the bitmap word of the run's first block. */
  predicate Home(begin: nat, len: nat, x: nat)
  {
    begin <= x < begin + len && x / CHUNK == begin / CHUNK
  }

  /* The shared bitmap. */

  class BitmapMgr {
    var entries: seq<Word>

    /** An all-free bitmap of `n` words. */
    constructor (n: nat)
      ensures |entries| == n && forall x: nat | x < CHUNK * n :: BitmapCount(entries, x) == 1
    {
      entries := seq(n, _ => seq(CHUNK, _ => false));
    }

    /** Marks one block as allocated. */
    method SetAllocated(block: nat)
      requires block / CHUNK < |entries|
      modifies this
      ensures |entries| == |old(entries)|
      ensures forall x: nat :: BitmapCount(entries, x) == if x == block then 0 else old(BitmapCount(entries, x))
    {
      entries := entries[block / CHUNK := SetBit(entries[block / CHUNK], block % CHUNK)];
    }

    /** Returns a run of blocks. Only the part of it in the word of its first
        block arrives. */
    method FreeBits(begin: nat, len: nat)
      requires begin / CHUNK < |entries| && 0 < len <= CHUNK
      modifies this
      ensures |entries| == |old(entries)|
      ensures forall x: nat ::
                BitmapCount(entries, x) == if Home(begin, len, x) then 1 else old(BitmapCount(entries, x))
    {
      entries := entries[begin / CHUNK := ClearBits(entries[begin / CHUNK], begin % CHUNK, len)];
    }

    /** Takes all free blocks of the first word, from the one of `hint` on, that
        has any. */
    method TryAlloc(hint: nat) returns (r: Option<(nat, Word)>)
      modifies this
      ensures |entries| == |old(entries)|
      ensures r.None? ==> entries == old(entries) && forall i | hint / CHUNK <= i < |entries| :: entries[i] == ALL_USED
      ensures r.Some? ==>
                var i := r.value.0 / CHUNK;
                && r.value.0 == CHUNK * i && hint / CHUNK <= i < |entries|
                && r.value.1 == old(entries)[i] && r.value.1 != ALL_USED
                && entries == old(entries)[i := ALL_USED]
                && (forall k | hint / CHUNK <= k < i :: entries[k] == ALL_USED)
    {
      var idx := hint / CHUNK;
      while idx < |entries|
        invariant hint / CHUNK <= idx && entries == old(entries)
        invariant forall i | hint / CHUNK <= i < idx && i < |entries| :: entries[i] == ALL_USED
      {
        var bits := entries[idx];
        entries := entries[idx := ALL_USED];
        if bits != ALL_USED {
          return Some((CHUNK * idx, bits));
        }
        idx := idx + 1;
      }
      return None;
    }
  }

  /** The word with bits `begin .. begin + len - 1` cleared; what lies beyond the
      word is shifted out of the mask. */
  function ClearBits(word: Word, begin: nat, len: nat): Word
  {
    seq(CHUNK, i requires 0 <= i < CHUNK => word[i] && !(begin <= i < begin + len))
  }

  function SetBit(word: Word, i: nat): Word
    requires i < CHUNK
  {
    word[i := true]
  }

  /** A word taken out of the bitmap carries its free blocks with it. */
  lemma TakenWord(entries: seq<Word>, i: nat, x: nat)
    requires i < |entries|
    ensures BitmapCount(entries, x) == BitmapCount(entries[i := ALL_USED], x) + ClearIn(entries[i], CHUNK * i, CHUNK, x)
  {
  }

  /* Free lists. */

  function Push(lists: seq<seq<nat>>, start: nat, n: nat): (lists': seq<seq<nat>>)
    requires 0 < n <= |lists|
    ensures |lists'| == |lists|
  {
    lists[n - 1 := lists[n - 1] + [start]]
  }

  function Pop(lists: seq<seq<nat>>, n: nat): (lists': seq<seq<nat>>)
    requires 0 < n <= |lists| && lists[n - 1] != []
    ensures |lists'| == |lists|
  {
    lists[n - 1 := lists[n - 1][..|lists[n - 1]| - 1]]
  }

  /** The run of `n` blocks listed last. */
  function LastOf(lists: seq<seq<nat>>, n: nat): nat
    requires 0 < n <= |lists| && lists[n - 1] != []
  {
    lists[n - 1][|lists[n - 1]| - 1]
  }

  lemma {:induction false} PushCount(lists: seq<seq<nat>>, start: nat, n: nat)
    requires 0 < n <= |lists|
    ensures forall x: nat ::
        ListsCount(Push(lists, start, n), |lists|, x) == ListsCount(lists, |lists|, x) + In(start, n, x)
  {
    var list := lists[n - 1];
    assert (list + [start])[..|list|] == list;
    forall x: nat ensures ListsCount(Push(lists, start, n), |lists|, x)
        == ListsCount(lists, |lists|, x) + In(start, n, x) {
      ListsPut(lists, n - 1, list + [start], |lists|, x);
    }
  }

  lemma {:induction false} PopCount(lists: seq<seq<nat>>, n: nat)
    requires 0 < n <= |lists| && lists[n - 1] != []
    ensures forall x: nat ::
              ListsCount(Pop(lists, n), |lists|, x) + In(LastOf(lists, n), n, x)
                  == ListsCount(lists, |lists|, x)
  {
    var list := lists[n - 1];
    forall x: nat
      ensures ListsCount(Pop(lists, n), |lists|, x) + In(list[|list| - 1], n, x) == ListsCount(lists, |lists|, x)
    {
      ListsPut(lists, n - 1, list[..|list| - 1], |lists|, x);
    }
  }

  /* Listed runs and the pieces of the mapping. */

  /** Every listed run lies in one piece of a mapping whose first piece has `first` blocks. */
  ghost predicate Pieced(lists: seq<seq<nat>>, first: nat)
  {
    forall n, k | 0 <= n < |lists| && 0 <= k < |lists[n]| :: InOnePiece(first, lists[n][k], n + 1)
  }

  /** If the listed runs lay in one piece each, they still do, and so do the `n`
      blocks handed out. */
  ghost predicate KeepsPieces(l0: seq<seq<nat>>, l1: seq<seq<nat>>, r: Option<nat>, n: nat)
  {
    forall first: nat | first % GROW == 0 && Pieced(l0, first) ::
      Pieced(l1, first) && (r.Some? ==> InOnePiece(first, r.value, n))
  }

  lemma PushPieced(lists: seq<seq<nat>>, start: nat, n: nat, first: nat)
    requires 0 < n <= |lists|
    ensures Pieced(Push(lists, start, n), first) <==> Pieced(lists, first) && InOnePiece(first, start, n)
  {
    var lists' := Push(lists, start, n);
    assert lists'[n - 1][|lists[n - 1]|] == start;
    if Pieced(lists', first) {
      assert InOnePiece(first, lists'[n - 1][|lists[n - 1]|], n);
      forall m, k | 0 <= m < |lists| && 0 <= k < |lists[m]| ensures InOnePiece(first, lists[m][k], m + 1) {
        assert lists'[m][k] == lists[m][k];
      }
    }
  }

  lemma PopPieced(lists: seq<seq<nat>>, n: nat, first: nat)
    requires 0 < n <= |lists| && lists[n - 1] != [] && Pieced(lists, first)
    ensures Pieced(Pop(lists, n), first) && InOnePiece(first, LastOf(lists, n), n)
  {
    var lists' := Pop(lists, n);
    forall m, k | 0 <= m < |lists'| && 0 <= k < |lists'[m]| ensures InOnePiece(first, lists'[m][k], m + 1) {
      assert lists'[m][k] == lists[m][k];
    }
  }

  /** The parts of a run in one piece are in one piece. */
  lemma PartInOnePiece(first: nat, begin: nat, len: nat, n: nat)
    requires first % GROW == 0 && InOnePiece(first, begin, len) && n <= len
    ensures InOnePiece(first, begin, n) && InOnePiece(first, begin + n, len - n)
  {
  }

  /** Runs inside one bitmap word always are. */
  lemma WordInOnePiece(first: nat, base: nat, pos: nat, len: nat)
    requires base % CHUNK == 0 && pos + len <= CHUNK
    ensures InOnePiece(first, base + pos, len)
  {
    var q := base / CHUNK;
    assert base == CHUNK * q && GROW == CHUNK * 8;
    if len > 0 {
      assert (base + pos) / GROW == q / 8 && (base + pos + len - 1) / GROW == q / 8;
    }
  }

  /** The lists stay in one piece each if the run `at .. at + z - 1` is. */
  ghost predicate AddsPieces(l0: seq<seq<nat>>, l1: seq<seq<nat>>, at: nat, z: nat)
  {
    forall first: nat | first % GROW == 0 && Pieced(l0, first) && InOnePiece(first, at, z) :: Pieced(l1, first)
  }

  lemma AddPart(lists: seq<seq<nat>>, at: nat, z: nat, n: nat)
    requires n < z <= |lists|
    ensures AddsPieces(lists, Push(lists, at + n, z - n), at, z)
  {
    forall first: nat | first % GROW == 0 && Pieced(lists, first) && InOnePiece(first, at, z)
      ensures Pieced(Push(lists, at + n, z - n), first)
    {
      PartInOnePiece(first, at, z, n);
      PushPieced(lists, at + n, z - n, first);
    }
  }

  lemma CutPieces(l0: seq<seq<nat>>, l1: seq<seq<nat>>, l2: seq<seq<nat>>, base: nat, pos: nat, z: nat,
                  r: Option<nat>, n: nat, taken: bool)
    requires KeepsPieces(l0, l1, r, n) && AddsPieces(l1, l2, base + pos, z)
    requires base % CHUNK == 0 && pos + z <= CHUNK && (taken ==> n <= z)
    ensures KeepsPieces(l0, l2, if taken then Some(base + pos) else r, n)
  {
    forall first: nat | first % GROW == 0 && Pieced(l0, first)
      ensures Pieced(l2, first)
      ensures taken ==> InOnePiece(first, base + pos, n)
    {
      WordInOnePiece(first, base, pos, z);
      if taken { WordInOnePiece(first, base, pos, n); }
    }
  }

  /** Taking the last run of a list, or the front of one that is too long. */
  lemma PopKeepsPieces(lists: seq<seq<nat>>, n: nat)
    requires 0 < n <= |lists| && lists[n - 1] != []
    ensures KeepsPieces(lists, Pop(lists, n), Some(LastOf(lists, n)), n)
  {
    forall first: nat | first % GROW == 0 && Pieced(lists, first)
      ensures Pieced(Pop(lists, n), first) && InOnePiece(first, LastOf(lists, n), n)
    {
      PopPieced(lists, n, first);
    }
  }

  lemma SplitKeepsPieces(lists: seq<seq<nat>>, m: nat, n: nat)
    requires 0 < n < m <= |lists| && lists[m - 1] != []
    ensures var b := LastOf(lists, m); KeepsPieces(lists, Push(Pop(lists, m), b + n, m - n), Some(b), n)
  {
    var b := LastOf(lists, m);
    forall first: nat | first % GROW == 0 && Pieced(lists, first)
      ensures Pieced(Push(Pop(lists, m), b + n, m - n), first) && InOnePiece(first, b, n)
    {
      PopPieced(lists, m, first);
      PartInOnePiece(first, b, m, n);
      PushPieced(Pop(lists, m), b + n, m - n, first);
    }
  }

  /* Cutting a word into runs. */

  /** The set bits that a shifted word starts with, read in the word itself. */
  lemma ScanOnes(word: Word, pos: nat)
    requires pos <= CHUNK
    ensures var bits := Shift(word, pos); var k := Trailing(bits, true);
            && pos + k <= CHUNK && All(word, pos, pos + k, true)
            && (pos + k < CHUNK ==> !word[pos + k]) && Shift(bits, k) == Shift(word, pos + k)
  {
    var bits := Shift(word, pos);
    var k := Trailing(bits, true);
    assert forall i | pos <= i < CHUNK :: word[i] == bits[i - pos];
    assert pos > 0 ==> !bits[CHUNK - pos];
    assert k <= CHUNK - pos;
  }

  /** Its clear bits, not counting the ones that the shift brought in. */
  lemma ScanZeros(word: Word, pos: nat)
    requires pos <= CHUNK
    ensures var bits := Shift(word, pos); var k := Min(Trailing(bits, false), CHUNK - pos);
            && All(word, pos, pos + k, false)
            && (pos + k < CHUNK ==> word[pos + k]) && Shift(bits, k) == Shift(word, pos + k)
  {
    var bits := Shift(word, pos);
    assert forall i | pos <= i < CHUNK :: word[i] == bits[i - pos];
  }

  /** Past a run of set bits, then a run of fewer than `n` clear bits, there is
      still no room for `n` blocks. */
  lemma NoWindow(word: Word, from: nat, pos: nat, z: nat, n: nat)
    requires from <= pos && pos + z <= CHUNK && 0 < n && z < n
    requires forall k | 0 <= k < from :: !Window(word, k, n)
    requires All(word, from, pos, true)
    requires z > 0 && pos + z < CHUNK ==> word[pos + z]
    ensures forall k | 0 <= k < pos + z :: !Window(word, k, n)
  {
    forall k | 0 <= k < pos + z ensures !Window(word, k, n) {
      if from <= k < pos { assert word[k]; }
    }
  }

  /** `r` is the lowest place for `n` blocks among those starting before `pos`,
      relative to block `base`. */
  ghost predicate FirstFit(word: Word, base: nat, n: nat, pos: nat, r: Option<nat>)
  {
    match r
    case None => forall k | 0 <= k < pos :: !Window(word, k, n)
    case Some(b) => base <= b && Window(word, b - base, n) && forall k | 0 <= k < b - base :: !Window(word, k, n)
  }

  /** There is room for one block in every word that is not used up. */
  lemma OneFits(word: Word, base: nat, r: Option<nat>)
    requires word != ALL_USED && FirstFit(word, base, 1, CHUNK, r)
    ensures r.Some?
  {
    if r.None? {
      forall i | 0 <= i < CHUNK ensures word[i] { assert !Window(word, i, 1); }
    }
  }

  lemma FitStep(word: Word, base: nat, n: nat, from: nat, pos: nat, z: nat, r: Option<nat>)
    requires FirstFit(word, base, n, from, r) && from <= pos && pos + z <= CHUNK && 0 < n
    requires All(word, from, pos, true)
    requires All(word, pos, pos + z, false) && (pos + z < CHUNK ==> word[pos + z])
    ensures FirstFit(word, base, n, pos + z, if r.None? && z >= n then Some(base + pos) else r)
  {
    if r.None? {
      if z >= n { NoWindow(word, from, pos, 0, n); } else { NoWindow(word, from, pos, z, n); }
    }
  }

  function Taken(r: Option<nat>, n: nat, x: nat): nat { if r.Some? then In(r.value, n, x) else 0 }

  /** The lists gained the run of `z` blocks at `at`, except for its first `n`. */
  ghost predicate Kept(before: seq<seq<nat>>, after: seq<seq<nat>>, at: nat, z: nat, n: nat)
  {
    && |before| == |after| == CHUNK
    && forall x: nat :: ListsCount(after, CHUNK, x) + In(at, n, x) == ListsCount(before, CHUNK, x) + In(at, z, x)
  }

  /** Cutting the first `k` bits of the word moved their clear blocks to the
      lists, apart from the ones taken. */
  ghost predicate Balanced(before: seq<seq<nat>>, after: seq<seq<nat>>, word: Word, base: nat, k: nat,
                           r: Option<nat>, n: nat)
  {
    && |before| == |after| == CHUNK
    && forall x: nat :: ListsCount(after, CHUNK, x) + Taken(r, n, x)
        == ListsCount(before, CHUNK, x) + ClearIn(word, base, k, x)
  }

  lemma BalanceStep(l0: seq<seq<nat>>, l1: seq<seq<nat>>, l2: seq<seq<nat>>, word: Word, base: nat,
                    from: nat, pos: nat, z: nat, r: Option<nat>, n: nat, taken: bool)
    requires Balanced(l0, l1, word, base, from, r, n) && from <= pos && pos + z <= CHUNK && |l2| == CHUNK
    requires All(word, from, pos, true) && All(word, pos, pos + z, false)
    requires taken ==> r.None?
    requires Kept(l1, l2, base + pos, z, if taken then n else 0)
    ensures Balanced(l0, l2, word, base, pos + z, if taken then Some(base + pos) else r, n)
  {
    forall x: nat
      ensures ListsCount(l2, CHUNK, x) + Taken(if taken then Some(base + pos) else r, n, x)
           == ListsCount(l0, CHUNK, x) + ClearIn(word, base, pos + z, x)
    {
      assert ListsCount(l1, CHUNK, x) + Taken(r, n, x) == ListsCount(l0, CHUNK, x) + ClearIn(word, base, from, x);
      assert ListsCount(l2, CHUNK, x) + In(base + pos, if taken then n else 0, x)
          == ListsCount(l1, CHUNK, x) + In(base + pos, z, x);
      assert ClearIn(word, base, pos + z, x) == ClearIn(word, base, from, x) + In(base + pos, z, x);
    }
  }

  lemma BalanceSkip(l0: seq<seq<nat>>, l1: seq<seq<nat>>, word: Word, base: nat, from: nat, pos: nat, r: Option<nat>,
                    n: nat)
    requires Balanced(l0, l1, word, base, from, r, n) && from <= pos <= CHUNK && All(word, from, pos, true)
    ensures Balanced(l0, l1, word, base, pos, r, n)
  {
    forall x: nat
      ensures ListsCount(l1, CHUNK, x) + Taken(r, n, x) == ListsCount(l0, CHUNK, x) + ClearIn(word, base, pos, x)
    {
      assert ListsCount(l1, CHUNK, x) + Taken(r, n, x) == ListsCount(l0, CHUNK, x) + ClearIn(word, base, from, x);
      assert ClearIn(word, base, pos, x) == ClearIn(word, base, from, x);
    }
  }

  /** The bitmap has no free block from the word of block `from` on. */
  ghost predicate Exhausted(from: nat, entries: seq<Word>)
  {
    forall x: nat :: from / CHUNK <= x / CHUNK ==> BitmapCount(entries, x) == 0
  }

  /** The words from the one of block `from` up to the one of block `to` are used
      up; the others are as before. */
  ghost predicate Swept(e0: seq<Word>, from: nat, e1: seq<Word>, to: nat)
  {
    && from / CHUNK <= to / CHUNK
    && forall x: nat ::
      BitmapCount(e1, x) == if from / CHUNK <= x / CHUNK < to / CHUNK then 0 else BitmapCount(e0, x)
  }

  lemma SweptMore(e0: seq<Word>, from: nat, e1: seq<Word>, recent: nat, e2: seq<Word>, base: nat)
    requires Swept(e0, from, e1, recent) && base % CHUNK == 0 && recent / CHUNK <= base / CHUNK < |e1|
    requires e2 == e1[base / CHUNK := ALL_USED]
    requires forall k | recent / CHUNK <= k < base / CHUNK :: e2[k] == ALL_USED
    ensures Swept(e0, from, e2, base + CHUNK)
  {
    assert (base + CHUNK) / CHUNK == base / CHUNK + 1;
    forall x: nat
      ensures BitmapCount(e2, x) == if from / CHUNK <= x / CHUNK < (base + CHUNK) / CHUNK then 0 else BitmapCount(e0, x)
    {
      assert BitmapCount(e1, x) == if from / CHUNK <= x / CHUNK < recent / CHUNK then 0 else BitmapCount(e0, x);
      if recent / CHUNK <= x / CHUNK <= base / CHUNK { assert e2[x / CHUNK] == ALL_USED; }
    }
  }

  lemma SweptAll(e0: seq<Word>, from: nat, e1: seq<Word>, recent: nat)
    requires Swept(e0, from, e1, recent)
    requires forall i | recent / CHUNK <= i < |e1| :: e1[i] == ALL_USED
    ensures Exhausted(from, e1)
  {
    forall x: nat | from / CHUNK <= x / CHUNK ensures BitmapCount(e1, x) == 0 {
      assert BitmapCount(e1, x) == if from / CHUNK <= x / CHUNK < recent / CHUNK then 0 else BitmapCount(e0, x);
      if recent / CHUNK <= x / CHUNK < |e1| { assert e1[x / CHUNK] == ALL_USED; }
    }
  }

  /** How often a block is free, in a thread's lists or in the bitmap. */
  function FreeCount(lists: seq<seq<nat>>, entries: seq<Word>, x: nat): nat
    requires |lists| == CHUNK
  {
    ListsCount(lists, CHUNK, x) + BitmapCount(entries, x)
  }

  /** Block `x` lies, in the bitmap word of its run's first block, in one of the
      first `n` lists or in one of the first `k` runs of the next. */
  ghost predicate HomeBlock(lists: seq<seq<nat>>, n: nat, k: nat, x: nat)
    requires n <= |lists| && (k > 0 ==> n < |lists| && k <= |lists[n]|)
  {
    || (exists m, j | 0 <= m < n && 0 <= j < |lists[m]| :: Home(lists[m][j], m + 1, x))
    || (exists j | 0 <= j < k :: Home(lists[n][j], n + 1, x))
  }

  /** A run is given back completely exactly when it does not reach into the next
      word; grouping an image can build runs that do, and those lose their rest. */
  lemma ReturnedIff(begin: nat, len: nat)
    requires len > 0
    ensures (forall x | begin <= x < begin + len :: Home(begin, len, x)) <==> begin % CHUNK + len <= CHUNK
  {
    if begin % CHUNK + len > CHUNK {
      assert !Home(begin, len, begin + len - 1);
    }
  }

  /** The bitmap after the lists have been given back; they are not emptied. */
  ghost predicate GivenBack(lists: seq<seq<nat>>, entries: seq<Word>, entries': seq<Word>)
    requires |lists| == CHUNK
  {
    forall x: nat :: BitmapCount(entries', x) == if HomeBlock(lists, CHUNK, 0, x) then 1 else BitmapCount(entries, x)
  }

  lemma {:induction false} Listed(lists: seq<seq<nat>>, k: nat, m: nat, j: nat, x: nat)
    requires m < k <= |lists| && j < |lists[m]| && Home(lists[m][j], m + 1, x)
    ensures ListsCount(lists, k, x) >= 1
  {
    if m < k - 1 { Listed(lists, k - 1, m, j, x); } else { InOneList(lists[m], k, j, x); }
  }

  lemma {:induction false} InOneList(starts: seq<nat>, n: nat, j: nat, x: nat)
    requires j < |starts| && In(starts[j], n, x) == 1
    ensures ListCount(starts, n, x) >= 1
  {
    if j < |starts| - 1 { InOneList(starts[..|starts| - 1], n, j, x); }
  }

  lemma HomeIsListed(lists: seq<seq<nat>>, x: nat)
    requires |lists| == CHUNK && HomeBlock(lists, CHUNK, 0, x)
    ensures ListsCount(lists, CHUNK, x) >= 1
  {
    var m, j :| 0 <= m < CHUNK && 0 <= j < |lists[m]| && Home(lists[m][j], m + 1, x);
    Listed(lists, CHUNK, m, j, x);
  }

  /** Giving the lists back leaves their blocks free twice. When they are given back
      again, as they are on destruction after a collection, that takes nothing from
      anyone exactly if nobody has allocated one of the blocks since. */
  lemma GivenBackAgain(lists: seq<seq<nat>>, e0: seq<Word>, e1: seq<Word>, e2: seq<Word>, e3: seq<Word>)
    requires |lists| == CHUNK && GivenBack(lists, e0, e1) && GivenBack(lists, e2, e3)
    ensures forall x: nat | HomeBlock(lists, CHUNK, 0, x) :: FreeCount(lists, e1, x) >= 2
    ensures (forall x: nat :: BitmapCount(e3, x) == BitmapCount(e2, x)) <==>
              forall x: nat | HomeBlock(lists, CHUNK, 0, x) :: BitmapCount(e2, x) == 1
  {
    forall x: nat | HomeBlock(lists, CHUNK, 0, x) ensures FreeCount(lists, e1, x) >= 2 { HomeIsListed(lists, x); }
    forall x: nat
      ensures BitmapCount(e3, x) == BitmapCount(e2, x) <==>
                (HomeBlock(lists, CHUNK, 0, x) ==> BitmapCount(e2, x) == 1)
    {
      assert BitmapCount(e3, x) == if HomeBlock(lists, CHUNK, 0, x) then 1 else BitmapCount(e2, x);
    }
  }

  /** Blocks handed out are held nowhere else, if no block was held twice before. */
  lemma NeverTwice(l0: seq<seq<nat>>, e0: seq<Word>, l1: seq<seq<nat>>, e1: seq<Word>, r: Option<nat>, n: nat)
    requires Conserved(l0, e0, l1, e1, r, n)
    requires forall x: nat :: FreeCount(l0, e0, x) <= 1
    ensures forall x: nat :: FreeCount(l1, e1, x) <= 1
    ensures r.Some? ==> forall x | r.value <= x < r.value + n :: FreeCount(l0, e0, x) == 1 && FreeCount(l1, e1, x) == 0
  {
    forall x: nat ensures FreeCount(l1, e1, x) + Taken(r, n, x) <= 1 {
      assert FreeCount(l0, e0, x) <= 1;
    }
  }

  /** Lists and bitmap together hold every block as often as before, apart from
      the `n` blocks handed out. */
  ghost predicate Conserved(l0: seq<seq<nat>>, e0: seq<Word>, l1: seq<seq<nat>>, e1: seq<Word>, r: Option<nat>, n: nat)
  {
    && |l0| == |l1| == CHUNK
    && forall x: nat :: FreeCount(l1, e1, x) + Taken(r, n, x) == FreeCount(l0, e0, x)
  }

  lemma ConserveCut(l0: seq<seq<nat>>, e0: seq<Word>, l1: seq<seq<nat>>, e1: seq<Word>, l2: seq<seq<nat>>, i: nat,
                    r: Option<nat>, n: nat)
    requires i < |e1| && Conserved(l0, e0, l1, e1, None, n) && Balanced(l1, l2, e1[i], CHUNK * i, CHUNK, r, n)
    ensures Conserved(l0, e0, l2, e1[i := ALL_USED], r, n)
  {
    forall x: nat
      ensures FreeCount(l2, e1[i := ALL_USED], x) + Taken(r, n, x) == FreeCount(l0, e0, x)
    {
      TakenWord(e1, i, x);
      assert FreeCount(l1, e1, x) + Taken(None, n, x) == FreeCount(l0, e0, x);
    }
  }

  lemma ConserveSplit(l0: seq<seq<nat>>, e: seq<Word>, m: nat, n: nat)
    requires |l0| == CHUNK && 0 < n < m <= CHUNK && l0[m - 1] != []
    ensures var b := LastOf(l0, m); Conserved(l0, e, Push(Pop(l0, m), b + n, m - n), e, Some(b), n)
  {
    PopCount(l0, m);
    PushCount(Pop(l0, m), LastOf(l0, m) + n, m - n);
  }

  lemma ConservePop(l0: seq<seq<nat>>, e: seq<Word>, n: nat)
    requires |l0| == CHUNK && 0 < n <= CHUNK && l0[n - 1] != []
    ensures Conserved(l0, e, Pop(l0, n), e, Some(LastOf(l0, n)), n)
  {
    PopCount(l0, n);
  }

  /** Drops the trailing set bits and counts the clear bits that follow. `bits`
      is `word` shifted so that `left` of its bits remain. */
  method NextRun(bits: Word, left: nat, ghost word: Word) returns (bits': Word, left': nat, zeros: nat)
    requires left <= CHUNK && bits == Shift(word, CHUNK - left)
    ensures left' <= left && zeros <= left' && bits' == Shift(word, CHUNK - left')
    ensures All(word, CHUNK - left, CHUNK - left', true) && All(word, CHUNK - left', CHUNK - left' + zeros, false)
    ensures zeros < left' ==> word[CHUNK - left' + zeros]
    ensures zeros == 0 ==> left' == 0
    ensures Shift(bits', zeros) == Shift(word, CHUNK - left' + zeros)
  {
    var ones := Trailing(bits, true);
    RunAt(word, CHUNK - left, ones);
    bits' := Shift(bits, ones);
    left' := left - ones;
    zeros := Min(Trailing(bits', false), left');
  }

  lemma RunAt(word: Word, pos: nat, ones: nat)
    requires pos <= CHUNK && ones == Trailing(Shift(word, pos), true)
    ensures pos + ones <= CHUNK && All(word, pos, pos + ones, true)
        && Shift(Shift(word, pos), ones) == Shift(word, pos + ones)
    ensures var zeros := Min(Trailing(Shift(word, pos + ones), false), CHUNK - (pos + ones));
            && All(word, pos + ones, pos + ones + zeros, false)
                && (pos + ones + zeros < CHUNK ==> word[pos + ones + zeros])
            && (zeros == 0 ==> pos + ones == CHUNK)
            && Shift(Shift(word, pos + ones), zeros) == Shift(word, pos + ones + zeros)
  {
    ScanOnes(word, pos);
    ScanZeros(word, pos + ones);
  }

  /* Freeing an image: the blocks that a write has superseded, 0 where there was none. */

  datatype Extent = Extent(start: nat, len: nat)

  /** One more block after the runs so far, whose last block was `prev`. */
  function AddTo(runs: seq<Extent>, prev: nat, x: nat): seq<Extent>
  {
    if x == 0 then runs
    else if runs != [] && prev != 0 && x == prev + 1
    then runs[..|runs| - 1] + [Extent(runs[|runs| - 1].start, runs[|runs| - 1].len + 1)]
    else runs + [Extent(x, 1)]
  }

  /** The image cut into runs of consecutive nonzero blocks, with their lengths. */
  function Runs(image: seq<nat>): seq<Extent>
  {
    if image == [] then []
    else AddTo(Runs(image[..|image| - 1]), if |image| > 1 then image[|image| - 2] else 0, image[|image| - 1])
  }

  /** The blocks of the runs, in order. */
  function Expand(runs: seq<Extent>): seq<nat>
  {
    if runs == [] then [] else Expand(runs[..|runs| - 1]) + Consecutive(runs[|runs| - 1].start, runs[|runs| - 1].len)
  }

  function Consecutive(start: nat, n: nat): (xs: seq<nat>)
    ensures |xs| == n && forall i | 0 <= i < n :: xs[i] == start + i
  {
    if n == 0 then [] else Consecutive(start, n - 1) + [start + n - 1]
  }

  function NonZero(image: seq<nat>): seq<nat>
  {
    if image == [] then []
    else if image[|image| - 1] == 0 then NonZero(image[..|image| - 1])
    else NonZero(image[..|image| - 1]) + [image[|image| - 1]]
  }

  /** While a run is open, its blocks are the last ones of the image. */
  lemma {:induction false} LastRun(image: seq<nat>)
    requires image != [] && image[|image| - 1] != 0
    ensures Runs(image) != []
    ensures var r := Runs(image)[|Runs(image)| - 1];
            0 < r.len <= |image| && r.start + r.len == image[|image| - 1] + 1
  {
    var n := |image| - 1;
    if n > 0 && image[n - 1] != 0 {
      LastRun(image[..n]);
    }
  }

  lemma {:induction false} ExpandPush(runs: seq<Extent>, start: nat, n: nat)
    ensures Expand(runs + [Extent(start, n)]) == Expand(runs) + Consecutive(start, n)
  {
    assert (runs + [Extent(start, n)])[..|runs|] == runs;
  }

  lemma {:induction false} ExpandExtend(init: seq<Extent>, start: nat, n: nat)
    ensures Expand(init + [Extent(start, n + 1)]) == Expand(init + [Extent(start, n)]) + [start + n]
  {
    ExpandPush(init, start, n + 1);
    ExpandPush(init, start, n);
    assert Consecutive(start, n + 1) == Consecutive(start, n) + [start + n];
    SeqAssoc(Expand(init), Consecutive(start, n), [start + n]);
  }

  lemma {:induction false} ExpandAdd(runs: seq<Extent>, prev: nat, x: nat)
    requires prev != 0 ==> runs != [] && runs[|runs| - 1].start + runs[|runs| - 1].len == prev + 1
    ensures Expand(AddTo(runs, prev, x)) == if x == 0 then Expand(runs) else Expand(runs) + [x]
  {
    if x != 0 {
      if runs != [] && prev != 0 && x == prev + 1 {
        var init, r := runs[..|runs| - 1], runs[|runs| - 1];
        assert runs == init + [Extent(r.start, r.len)];
        ExpandExtend(init, r.start, r.len);
      } else {
        ExpandPush(runs, x, 1);
        assert Consecutive(x, 1) == Consecutive(x, 0) + [x] == [x];
      }
    }
  }

  lemma SeqAssoc(a: seq<nat>, b: seq<nat>, c: seq<nat>)
    ensures a + (b + c) == a + b + c
  {
  }

  /** The runs are the image without its zeros: every superseded block once, in order. */
  lemma {:induction false} RunsExpand(image: seq<nat>)
    ensures Expand(Runs(image)) == NonZero(image)
  {
    if image != [] {
      var init, prev := image[..|image| - 1], if |image| > 1 then image[|image| - 2] else 0;
      RunsExpand(init);
      if prev != 0 { LastRun(init); }
      ExpandAdd(Runs(init), prev, image[|image| - 1]);
    }
  }

  /** A run as long as a free list can hold. */
  ghost predicate Listable(runs: seq<Extent>)
  {
    forall i | 0 <= i < |runs| :: 0 < runs[i].len <= CHUNK
  }

  lemma {:induction false} RunsNoLonger(image: seq<nat>)
    ensures forall i | 0 <= i < |Runs(image)| :: 0 < Runs(image)[i].len <= |image|
  {
    if image != [] {
      RunsNoLonger(image[..|image| - 1]);
      if image[|image| - 1] != 0 { LastRun(image); }
    }
  }

  /** If an image can be freed, so can every prefix of it. */
  lemma {:induction false} PrefixListable(image: seq<nat>, k: nat)
    requires k <= |image| && Listable(Runs(image))
    ensures Listable(Runs(image[..k]))
    decreases |image|
  {
    if k == |image| {
      assert image[..k] == image;
    } else {
      var init := image[..|image| - 1];
      RunsNoLonger(init);
      forall i | 0 <= i < |Runs(init)| ensures Runs(init)[i].len <= CHUNK { assert Runs(image)[i].len <= CHUNK; }
      PrefixListable(init, k);
      assert init[..k] == image[..k];
    }
  }

  lemma PrefixNotListable(image: seq<nat>, k: nat)
    requires k <= |image| && !Listable(Runs(image[..k]))
    ensures !Listable(Runs(image))
  {
    if Listable(Runs(image)) { PrefixListable(image, k); }
  }

  /** Images of at most 64 blocks are safe to free ... */
  lemma {:induction false} ShortImageIsListable(image: seq<nat>)
    requires |image| <= CHUNK
    ensures Listable(Runs(image))
  {
    RunsNoLonger(image);
  }

  /** Consecutive blocks are one run. */
  lemma {:induction false} ConsecutiveRuns(start: nat, n: nat)
    requires start > 0 && n > 0
    ensures Runs(Consecutive(start, n)) == [Extent(start, n)]
  {
    if n > 1 {
      ConsecutiveRuns(start, n - 1);
      assert Consecutive(start, n)[..n - 1] == Consecutive(start, n - 1);
    } else {
      assert Consecutive(start, 1)[..0] == [];
    }
  }

  /** ... but 65 consecutive blocks are not: the run has no list. */
  lemma LongImageIsNot()
    ensures !Listable(Runs(Consecutive(1, CHUNK + 1)))
  {
    ConsecutiveRuns(1, CHUNK + 1);
    assert Runs(Consecutive(1, CHUNK + 1))[0].len == CHUNK + 1;
  }

  function PushAll(lists: seq<seq<nat>>, runs: seq<Extent>): (lists': seq<seq<nat>>)
    requires |lists| == CHUNK && Listable(runs)
    ensures |lists'| == |lists|
  {
    if runs == [] then lists
    else Push(PushAll(lists, runs[..|runs| - 1]), runs[|runs| - 1].start, runs[|runs| - 1].len)
  }

  /** Freeing keeps listed runs in one piece each exactly if all grouped runs are. */
  lemma {:induction false} PushAllPieced(lists: seq<seq<nat>>, runs: seq<Extent>, first: nat)
    requires |lists| == CHUNK && Listable(runs)
    ensures Pieced(PushAll(lists, runs), first) <==> Pieced(lists, first) && RunsPieced(runs, first)
  {
    if runs != [] {
      var init, r := runs[..|runs| - 1], runs[|runs| - 1];
      PushAllPieced(lists, init, first);
      PushPieced(PushAll(lists, init), r.start, r.len, first);
      assert runs == init + [r];
    }
  }

  ghost predicate RunsPieced(runs: seq<Extent>, first: nat)
  {
    forall i | 0 <= i < |runs| :: InOnePiece(first, runs[i].start, runs[i].len)
  }

  function Occurs(xs: seq<nat>, x: nat): nat
  {
    if xs == [] then 0 else Occurs(xs[..|xs| - 1], x) + if xs[|xs| - 1] == x then 1 else 0
  }

  lemma {:induction false} OccursConsecutive(xs: seq<nat>, start: nat, n: nat, x: nat)
    ensures Occurs(xs + Consecutive(start, n), x) == Occurs(xs, x) + In(start, n, x)
  {
    if n > 0 {
      OccursConsecutive(xs, start, n - 1, x);
      var ys := xs + Consecutive(start, n);
      assert ys[..|ys| - 1] == xs + Consecutive(start, n - 1);
    } else {
      assert xs + Consecutive(start, 0) == xs;
    }
  }

  /** Pushing runs adds each of their blocks to the lists once. */
  lemma {:induction false} PushAllCount(lists: seq<seq<nat>>, runs: seq<Extent>, x: nat)
    requires |lists| == CHUNK && Listable(runs)
    ensures ListsCount(PushAll(lists, runs), CHUNK, x) == ListsCount(lists, CHUNK, x) + Occurs(Expand(runs), x)
  {
    if runs != [] {
      var init, r := runs[..|runs| - 1], runs[|runs| - 1];
      PushAllCount(lists, init, x);
      PushCount(PushAll(lists, init), r.start, r.len);
      OccursConsecutive(Expand(init), r.start, r.len, x);
    }
  }

  /* Running out of blocks. */

  /** The bitmap has no free block before the word of block `recent`. */
  ghost predicate Passed(entries: seq<Word>, recent: nat)
  {
    forall x: nat | x / CHUNK < recent / CHUNK :: BitmapCount(entries, x) == 0
  }

  lemma PassedOn(e0: seq<Word>, from: nat, e1: seq<Word>, to: nat)
    requires Passed(e0, from) && Swept(e0, from, e1, to)
    ensures Passed(e1, to)
  {
    forall x: nat | x / CHUNK < to / CHUNK ensures BitmapCount(e1, x) == 0 {
      assert BitmapCount(e1, x) == if from / CHUNK <= x / CHUNK < to / CHUNK then 0 else BitmapCount(e0, x);
    }
  }

  /** No free block has a number of at least `bound`. */
  ghost predicate NoneBeyond(lists: seq<seq<nat>>, entries: seq<Word>, bound: nat)
    requires |lists| == CHUNK
  {
    forall y: nat | y >= bound :: FreeCount(lists, entries, y) == 0
  }

  lemma {:induction false} ListBound(starts: seq<nat>, n: nat) returns (bound: nat)
    ensures forall y: nat | y >= bound :: ListCount(starts, n, y) == 0
  {
    bound := 0;
    if starts != [] {
      var b := ListBound(starts[..|starts| - 1], n);
      bound := Max(b, starts[|starts| - 1] + n);
    }
  }

  lemma {:induction false} ListsBound(lists: seq<seq<nat>>, k: nat) returns (bound: nat)
    requires k <= |lists|
    ensures forall y: nat | y >= bound :: ListsCount(lists, k, y) == 0
  {
    bound := 0;
    if k > 0 {
      var a := ListsBound(lists, k - 1);
      var b := ListBound(lists[k - 1], k);
      bound := Max(a, b);
    }
  }

  lemma FreeBound(lists: seq<seq<nat>>, entries: seq<Word>) returns (bound: nat)
    requires |lists| == CHUNK
    ensures NoneBeyond(lists, entries, bound)
  {
    var b := ListsBound(lists, CHUNK);
    bound := Max(b, CHUNK * |entries|);
  }

  /** The free blocks below `bound`, all together. */
  ghost function Total(lists: seq<seq<nat>>, entries: seq<Word>, bound: nat): nat
    requires |lists| == CHUNK
  {
    if bound == 0 then 0 else Total(lists, entries, bound - 1) + FreeCount(lists, entries, bound - 1)
  }

  lemma {:induction false} TotalIs(l0: seq<seq<nat>>, e0: seq<Word>, l1: seq<seq<nat>>, e1: seq<Word>, b: nat,
                                   bound: nat)
    requires Conserved(l0, e0, l1, e1, Some(b), 1)
    ensures Total(l1, e1, bound) + (if b < bound then 1 else 0) == Total(l0, e0, bound)
  {
    if bound > 0 {
      TotalIs(l0, e0, l1, e1, b, bound - 1);
      assert FreeCount(l1, e1, bound - 1) + Taken(Some(b), 1, bound - 1) == FreeCount(l0, e0, bound - 1);
    }
  }

  lemma TotalDrops(l0: seq<seq<nat>>, e0: seq<Word>, l1: seq<seq<nat>>, e1: seq<Word>, b: nat, bound: nat)
    requires Conserved(l0, e0, l1, e1, Some(b), 1) && NoneBeyond(l0, e0, bound)
    ensures Total(l1, e1, bound) < Total(l0, e0, bound) && NoneBeyond(l1, e1, bound)
  {
    TotalIs(l0, e0, l1, e1, b, bound);
    assert FreeCount(l1, e1, b) + Taken(Some(b), 1, b) == FreeCount(l0, e0, b);
    forall y: nat | y >= bound ensures FreeCount(l1, e1, y) == 0 {
      assert FreeCount(l1, e1, y) + Taken(Some(b), 1, y) == FreeCount(l0, e0, y);
    }
  }

  lemma NoneLeft(lists: seq<seq<nat>>, entries: seq<Word>, recent: nat, x: nat)
    requires |lists| == CHUNK && Passed(entries, recent) && Exhausted(recent, entries)
    requires forall k | 0 <= k < CHUNK :: lists[k] == []
    ensures FreeCount(lists, entries, x) == 0
  {
    EmptyLists(lists, CHUNK, x);
  }

  lemma {:induction false} EmptyLists(lists: seq<seq<nat>>, k: nat, x: nat)
    requires k <= |lists| && forall i | 0 <= i < |lists| :: lists[i] == []
    ensures ListsCount(lists, k, x) == 0
  {
    if k > 0 { EmptyLists(lists, k - 1, x); }
  }

  class BlockAllocator {
    const bitmap: BitmapMgr
    var lists: seq<seq<nat>>
    var recent: nat

    ghost predicate Valid() reads this { |lists| == CHUNK }

    /** How often the free lists hold block `x`. */
    ghost function Count(x: nat): nat
      requires Valid()
      reads this
    {
      ListsCount(lists, CHUNK, x)
    }

    constructor (bitmap: BitmapMgr)
      ensures Valid() && this.bitmap == bitmap && lists == seq(CHUNK, _ => []) && recent == 0
    {
      this.bitmap := bitmap;
      lists := seq(CHUNK, _ => []);
      recent := 0;
    }

    /** Gives a run of `z` blocks at `at` to the lists, except for its first `n`
        blocks if they are wanted and the run is long enough. */
    method Keep(at: nat, z: nat, n: nat, wanted: bool) returns (taken: bool)
      requires Valid() && 0 < n <= CHUNK && 0 < z <= CHUNK
      modifies this`lists
      ensures Valid() && taken == (wanted && z >= n)
      ensures Kept(old(lists), lists, at, z, if taken then n else 0) && AddsPieces(old(lists), lists, at, z)
    {
      taken := wanted && z >= n;
      if taken {
        if z > n {
          PushCount(lists, at + n, z - n);
          AddPart(lists, at, z, n);
          lists := Push(lists, at + n, z - n);
        }
      } else {
        PushCount(lists, at, z);
        AddPart(lists, at, z, 0);
        lists := Push(lists, at, z);
      }
    }

    /** Cuts the clear bits of a word into runs. The lowest run of at least `n`
        blocks provides the result; its rest and all other runs go to the free
        lists. */
    method CutWord(base: nat, word: Word, n: nat) returns (r: Option<nat>)
      requires Valid() && 0 < n <= CHUNK && base % CHUNK == 0
      modifies this`lists
      ensures Valid() && KeepsPieces(old(lists), lists, r, n)
      ensures Balanced(old(lists), lists, word, base, CHUNK, r, n)
      ensures FirstFit(word, base, n, CHUNK, r)
    {
      var bits := word;
      var left: nat := CHUNK;
      r := None;
      assert bits == Shift(word, 0);
      while left > 0
        invariant left <= CHUNK && bits == Shift(word, CHUNK - left)
        invariant Balanced(old(lists), lists, word, base, CHUNK - left, r, n) && KeepsPieces(old(lists), lists, r, n)
        invariant FirstFit(word, base, n, CHUNK - left, r)
      {
        bits, left, r := CutRun(old(lists), base, word, n, bits, left, r);
      }
    }

    /** One turn of the loop: the next run of clear bits, if there is one, is the
        result or is listed. */
    method CutRun(ghost lists0: seq<seq<nat>>, base: nat, word: Word, n: nat, bits: Word, left: nat, r: Option<nat>)
      returns (bits': Word, left': nat, r': Option<nat>)
      requires Valid() && 0 < n <= CHUNK && base % CHUNK == 0 && 0 < left <= CHUNK && bits == Shift(word, CHUNK - left)
      requires Balanced(lists0, lists, word, base, CHUNK - left, r, n) && KeepsPieces(lists0, lists, r, n)
      requires FirstFit(word, base, n, CHUNK - left, r)
      modifies this`lists
      ensures Valid() && left' < left && bits' == Shift(word, CHUNK - left')
      ensures Balanced(lists0, lists, word, base, CHUNK - left', r', n) && KeepsPieces(lists0, lists, r', n)
      ensures FirstFit(word, base, n, CHUNK - left', r')
    {
      ghost var from, was := CHUNK - left, lists;
      var zeros;
      bits', left', zeros := NextRun(bits, left, word);
      r' := r;
      ghost var pos := CHUNK - left';
      FitStep(word, base, n, from, pos, zeros, r);
      if zeros == 0 {
        BalanceSkip(lists0, lists, word, base, from, pos, r, n);
        return;
      }
      var at: nat := base + (CHUNK - left');
      var taken := Keep(at, zeros, n, r.None?);
      BalanceStep(lists0, was, lists, word, base, from, pos, zeros, r, n, taken);
      CutPieces(lists0, was, lists, base, pos, zeros, r, n, taken);
      if taken { r' := Some(at); }
      bits' := Shift(bits', zeros);
      left' := left' - zeros;
    }

    /** Allocates `n` contiguous blocks, from the free lists if one of them has a
        long enough run, and otherwise from the bitmap, one word after another.
        It fails only when no word from the last one used on has a free block. */
    method Alloc(n: nat) returns (r: Option<nat>)
      requires Valid() && 0 < n <= CHUNK
      modifies this, bitmap
      ensures Valid() && |bitmap.entries| == |old(bitmap.entries)|
      ensures Conserved(old(lists), old(bitmap.entries), lists, bitmap.entries, r, n)
      ensures (exists k | n - 1 <= k < CHUNK :: old(lists)[k] != []) ==>
                r.Some? && bitmap.entries == old(bitmap.entries)
      ensures Swept(old(bitmap.entries), old(recent), bitmap.entries, recent)
      ensures r.None? ==> Exhausted(old(recent), bitmap.entries) && (n == 1 ==> bitmap.entries == old(bitmap.entries))
      ensures KeepsPieces(old(lists), lists, r, n)
      ensures old(lists)[n - 1] != [] ==> r == Some(LastOf(old(lists), n)) && lists == Pop(old(lists), n)
    {
      if lists[n - 1] != [] {
        ConservePop(lists, bitmap.entries, n);
        PopKeepsPieces(lists, n);
        r := Some(LastOf(lists, n));
        lists := Pop(lists, n);
        return;
      }
      for m := n + 1 to CHUNK + 1
        invariant lists == old(lists) && bitmap.entries == old(bitmap.entries) && recent == old(recent)
        invariant forall k | n - 1 <= k < m - 1 :: lists[k] == []
      {
        if lists[m - 1] != [] {
          ConserveSplit(lists, bitmap.entries, m, n);
          SplitKeepsPieces(lists, m, n);
          var b := LastOf(lists, m);
          lists := Push(Pop(lists, m), b + n, m - n);
          return Some(b);
        }
      }
      r := AllocFromBitmap(n);
    }

    method AllocFromBitmap(n: nat) returns (r: Option<nat>)
      requires Valid() && 0 < n <= CHUNK
      modifies this, bitmap
      ensures Valid() && |bitmap.entries| == |old(bitmap.entries)|
      ensures Conserved(old(lists), old(bitmap.entries), lists, bitmap.entries, r, n)
      ensures Swept(old(bitmap.entries), old(recent), bitmap.entries, recent)
      ensures r.None? ==> Exhausted(old(recent), bitmap.entries) && (n == 1 ==> bitmap.entries == old(bitmap.entries))
      ensures KeepsPieces(old(lists), lists, r, n)
    {
      r := None;
      while true
        invariant Valid() && r.None? && |bitmap.entries| == |old(bitmap.entries)|
        invariant Conserved(old(lists), old(bitmap.entries), lists, bitmap.entries, None, n)
        invariant Swept(old(bitmap.entries), old(recent), bitmap.entries, recent)
        invariant KeepsPieces(old(lists), lists, None, n) && (n == 1 ==> bitmap.entries == old(bitmap.entries))
        decreases |bitmap.entries| - recent / CHUNK
      {
        ghost var l1, e1 := lists, bitmap.entries;
        var t := bitmap.TryAlloc(recent);
        if t.None? {
          SweptAll(old(bitmap.entries), old(recent), bitmap.entries, recent);
          return None;
        }
        var (base, word) := t.value;
        r := CutWord(base, word, n);
        ConserveCut(old(lists), old(bitmap.entries), l1, e1, lists, base / CHUNK, r, n);
        SweptMore(old(bitmap.entries), old(recent), e1, recent, bitmap.entries, base);
        recent := base + CHUNK;
        if n == 1 { OneFits(word, base, r); }
        if r.Some? { return; }
      }
    }

    /** Every listed run comes out again as a whole: allocations of its length
        return it sooner or later. */
    method TakeListed(n: nat, k: nat) returns (b: nat)
      requires Valid() && 0 < n <= CHUNK && k < |lists[n - 1]|
      modifies this, bitmap
      ensures b == old(lists)[n - 1][k]
    {
      while |lists[n - 1]| > k + 1
        invariant Valid() && k < |lists[n - 1]| && lists[n - 1] <= old(lists)[n - 1]
      {
        var r := Alloc(n);
      }
      var r := Alloc(n);
      b := r.value;
    }

    /** Whether block `x` is handed out before the allocator runs out of blocks:
        exactly if it is free. */
    method HandsOut(x: nat) returns (yes: bool)
      requires Valid() && Passed(bitmap.entries, recent)
      modifies this, bitmap
      ensures yes <==> FreeCount(old(lists), old(bitmap.entries), x) > 0
    {
      ghost var bound := FreeBound(lists, bitmap.entries);
      while true
        invariant Valid() && Passed(bitmap.entries, recent) && NoneBeyond(lists, bitmap.entries, bound)
        invariant FreeCount(lists, bitmap.entries, x) == FreeCount(old(lists), old(bitmap.entries), x)
        decreases Total(lists, bitmap.entries, bound)
      {
        ghost var l0, e0, from := lists, bitmap.entries, recent;
        var r := Alloc(1);
        if r.None? {
          NoneLeft(l0, e0, from, x);
          return false;
        }
        if r.value == x { return true; }
        PassedOn(e0, from, bitmap.entries, recent);
        TotalDrops(l0, e0, lists, bitmap.entries, r.value, bound);
      }
    }

    /** Returns `n` contiguous blocks to the lists; block 0 stands for none. */
    method FreeRun(block: nat, n: nat)
      requires Valid() && 0 < n <= CHUNK
      modifies this`lists
      ensures Valid() && lists == if block == 0 then old(lists) else Push(old(lists), block, n)
      ensures Kept(old(lists), lists, block, if block == 0 then 0 else n, 0)
    {
      if block == 0 { return; }
      PushCount(lists, block, n);
      lists := Push(lists, block, n);
    }
 
    /** Frees an image by grouping consecutive blocks. Every nonzero entry of the
        image enters the lists exactly once, unless a group is longer than any
        list is for; the source then writes past its lists. */
    method FreeImage(image: seq<nat>) returns (ok: bool)
      requires Valid()
      modifies this`lists
      ensures ok <==> Listable(Runs(image))
      ensures ok ==> Valid() && lists == PushAll(old(lists), Runs(image))
      ensures ok ==> forall x: nat :: Count(x) == old(Count(x)) + Occurs(NonZero(image), x)
    {
      var groupBegin: nat, groupLidx: nat := 0, 0;
      ghost var done: seq<Extent> := [];
      var curr: nat := 0;
      while curr < |image|
        invariant curr <= |image|
        invariant Grouping(image, curr, groupBegin, groupLidx, done) && Listable(done)
            && lists == PushAll(old(lists), done)
      {
        ok, groupBegin, groupLidx, done := GroupTurn(old(lists), image, curr, groupBegin, groupLidx, done);
        if !ok { return; }
        curr := curr + 1;
      }
      assert image[..|image|] == image;
      ok := true;
      if groupLidx != 0 {
        ok, done := PushGroup(old(lists), image, |image|, groupBegin, groupLidx, done);
      }
      if ok { ImageCount(old(lists), image); }
    }

    /** One turn of `FreeImage`: the next block starts a group, continues it, or
        ends it. */
    method GroupTurn(ghost lists0: seq<seq<nat>>, image: seq<nat>, curr: nat, begin: nat, lidx: nat,
                     ghost done: seq<Extent>)
      returns (ok: bool, begin': nat, lidx': nat, ghost done': seq<Extent>)
      requires curr < |image| && Grouping(image, curr, begin, lidx, done)
      requires |lists0| == CHUNK && Listable(done) && lists == PushAll(lists0, done)
      modifies this`lists
      ensures ok ==> Grouping(image, curr + 1, begin', lidx', done') && Listable(done')
      ensures ok ==> lists == PushAll(lists0, done')
      ensures !ok ==> !Listable(Runs(image))
    {
      ok, begin', lidx', done' := true, begin, lidx, done;
      GroupStep(image, curr, begin, lidx, done);
      if lidx == 0 {
        if image[curr] != 0 {
          begin', lidx' := curr, image[curr];
        }
      } else if image[curr] != lidx + (curr - begin) {
        ok, done' := PushGroup(lists0, image, curr, begin, lidx, done);
        lidx' := image[curr];
        if lidx' != 0 { begin' := curr; }
      }
    }

    method PushGroup(ghost lists0: seq<seq<nat>>, ghost image: seq<nat>, curr: nat, groupBegin: nat, groupLidx: nat,
                     ghost done: seq<Extent>)
      returns (ok: bool, ghost done': seq<Extent>)
      requires |lists0| == CHUNK && Listable(done) && lists == PushAll(lists0, done) && groupLidx != 0
      requires curr <= |image| && Grouping(image, curr, groupBegin, groupLidx, done)
      modifies this`lists
      ensures ok ==> done' == Runs(image[..curr]) && Listable(done') && lists == PushAll(lists0, done')
      ensures !ok ==> !Listable(Runs(image))
    {
      done' := done + [Extent(groupLidx, curr - groupBegin)];
      ok := curr - groupBegin <= CHUNK;
      if ok {
        assert done'[..|done|] == done;
        lists := Push(lists, groupLidx, curr - groupBegin);
      } else {
        assert done'[|done|].len > CHUNK;
        PrefixNotListable(image, curr);
      }
    }

    /** Gives all blocks of the lists back to the bitmap, as on destruction. */
    method ReturnFreeList()
      requires Valid()
      requires forall n, k | 0 <= n < CHUNK && 0 <= k < |lists[n]| :: lists[n][k] / CHUNK < |bitmap.entries|
      modifies bitmap
      ensures |bitmap.entries| == |old(bitmap.entries)| && GivenBack(lists, old(bitmap.entries), bitmap.entries)
    {
      for n := 0 to CHUNK
        invariant |bitmap.entries| == |old(bitmap.entries)|
        invariant forall x: nat ::
                    BitmapCount(bitmap.entries, x)
                        == if HomeBlock(lists, n, 0, x) then 1 else old(BitmapCount(bitmap.entries, x))
      {
        for k := 0 to |lists[n]|
          invariant |bitmap.entries| == |old(bitmap.entries)|
          invariant forall x: nat ::
                      BitmapCount(bitmap.entries, x)
                          == if HomeBlock(lists, n, k, x) then 1 else old(BitmapCount(bitmap.entries, x))
        {
          bitmap.FreeBits(lists[n][k], n + 1);
        }
      }
    }
  }

  /** Every nonzero block of an image enters the lists once. */
  lemma {:induction false} ImageCount(lists: seq<seq<nat>>, image: seq<nat>)
    requires |lists| == CHUNK && Listable(Runs(image))
    ensures forall x: nat ::
        ListsCount(PushAll(lists, Runs(image)), CHUNK, x) == ListsCount(lists, CHUNK, x) + Occurs(NonZero(image), x)
  {
    RunsExpand(image);
    forall x: nat ensures ListsCount(PushAll(lists, Runs(image)), CHUNK, x)
        == ListsCount(lists, CHUNK, x) + Occurs(NonZero(image), x) {
      PushAllCount(lists, Runs(image), x);
    }
  }

  /** The first `curr` blocks of the image form the runs `done` and, if `lidx` is
      not 0, an open one from index `begin` on. */
  ghost predicate Grouping(image: seq<nat>, curr: nat, begin: nat, lidx: nat, done: seq<Extent>)
    requires curr <= |image|
  {
    && (lidx != 0) == (curr > 0 && image[curr - 1] != 0)
    && (lidx != 0 ==> begin < curr && image[curr - 1] == lidx + (curr - 1 - begin))
    && Runs(image[..curr]) == if lidx != 0 then done + [Extent(lidx, curr - begin)] else done
  }

  lemma GroupStep(image: seq<nat>, curr: nat, begin: nat, lidx: nat, done: seq<Extent>)
    requires curr < |image| && Grouping(image, curr, begin, lidx, done)
    ensures var x := image[curr];
            && (lidx == 0 ==> Grouping(image, curr + 1, if x == 0 then begin else curr, x, done))
            && (lidx != 0 && x == lidx + (curr - begin) ==> Grouping(image, curr + 1, begin, lidx, done))
            && (lidx != 0 && x != lidx + (curr - begin) ==>
                  Grouping(image, curr + 1, if x == 0 then begin else curr, x, Runs(image[..curr])))
  {
    var x, next := image[curr], image[..curr + 1];
    assert next[..curr] == image[..curr];
    assert Runs(next) == AddTo(Runs(image[..curr]), if curr > 0 then image[curr - 1] else 0, x);
    if lidx != 0 {
      assert Runs(image[..curr])[..|done|] == done;
    }
  }

  /** Consecutive blocks freed together and given back: the part of them in the
      first block's word becomes free, and nothing else. */
  method FreeAndReturn(bitmap: BitmapMgr, begin: nat, len: nat)
    requires begin > 0 && 0 < len <= CHUNK && begin / CHUNK < |bitmap.entries|
    modifies bitmap
    ensures |bitmap.entries| == |old(bitmap.entries)|
    ensures forall x: nat ::
        BitmapCount(bitmap.entries, x) == if Home(begin, len, x) then 1 else old(BitmapCount(bitmap.entries, x))
  {
    var alloc := ListRun(bitmap, begin, len);
    ghost var entries := bitmap.entries;
    alloc.ReturnFreeList();
    OneGivenBack(alloc.lists, begin, len, entries, bitmap.entries);
  }

  /** Block `b` has been freed by a thread that gives its lists back twice. In between
      another thread allocates the block, and afterwards a third one gets it as well. */
  method HandedOutTwice(bitmap: BitmapMgr, b: nat) returns (second: Option<nat>, third: Option<nat>)
    requires b > 0 && b / CHUNK < |bitmap.entries| && forall x: nat :: BitmapCount(bitmap.entries, x) == 0
    modifies bitmap
    ensures second == third == Some(b)
  {
    var alloc := ListRun(bitmap, b, 1);
    second := ReturnAndTake(alloc, b);
    third := ReturnAndTake(alloc, b);
  }

  /** A thread gives back a list of one block, and another one takes the block. */
  method ReturnAndTake(alloc: BlockAllocator, b: nat) returns (r: Option<nat>)
    requires alloc.Valid() && OneRun(alloc.lists, b, 1) && b > 0 && b / CHUNK < |alloc.bitmap.entries|
    requires forall x: nat :: BitmapCount(alloc.bitmap.entries, x) == 0
    modifies alloc.bitmap
    ensures r == Some(b) && |alloc.bitmap.entries| == |old(alloc.bitmap.entries)|
    ensures forall x: nat :: BitmapCount(alloc.bitmap.entries, x) == 0
  {
    ghost var e0 := alloc.bitmap.entries;
    alloc.ReturnFreeList();
    ghost var e1 := alloc.bitmap.entries;
    OneGivenBack(alloc.lists, b, 1, e0, e1);
    var other := new BlockAllocator(alloc.bitmap);
    ghost var none := other.lists;
    r := other.Alloc(1);
    assert BitmapCount(e1, b) == 1 && Home(b, 1, b);
    OnlyOne(none, e1, other.lists, alloc.bitmap.entries, r, b);
  }

  lemma OnlyOne(l0: seq<seq<nat>>, e0: seq<Word>, l1: seq<seq<nat>>, e1: seq<Word>, r: Option<nat>, b: nat)
    requires Conserved(l0, e0, l1, e1, r, 1) && (forall k | 0 <= k < CHUNK :: l0[k] == [])
    requires forall x: nat :: BitmapCount(e0, x) == if x == b then 1 else 0
    ensures r.Some? ==> r == Some(b) && forall x: nat :: BitmapCount(e1, x) == 0
  {
    if r.Some? {
      forall x: nat ensures FreeCount(l1, e1, x) + In(r.value, 1, x) == if x == b then 1 else 0 {
        EmptyLists(l0, CHUNK, x);
        assert FreeCount(l1, e1, x) + Taken(r, 1, x) == FreeCount(l0, e0, x);
      }
      assert In(r.value, 1, r.value) == 1;
      forall x: nat ensures BitmapCount(e1, x) == 0 {
        assert FreeCount(l1, e1, x) + In(r.value, 1, x) == if x == b then 1 else 0;
      }
    }
  }

  /** A new allocator whose lists hold one run. */
  method ListRun(bitmap: BitmapMgr, begin: nat, len: nat) returns (alloc: BlockAllocator)
    requires begin > 0 && 0 < len <= CHUNK
    ensures fresh(alloc) && alloc.Valid() && alloc.bitmap == bitmap && OneRun(alloc.lists, begin, len)
  {
    alloc := new BlockAllocator(bitmap);
    ghost var none := alloc.lists;
    ConsecutiveRuns(begin, len);
    var ok := alloc.FreeImage(Consecutive(begin, len));
    OnePushed(none, Extent(begin, len));
  }

  ghost predicate OneRun(lists: seq<seq<nat>>, begin: nat, len: nat)
  {
    |lists| == CHUNK && forall n | 0 <= n < CHUNK :: lists[n] == if n == len - 1 then [begin] else []
  }

  /** Of ten blocks, four in one word and six in the next, the six stay marked as
      allocated although nobody holds them. */
  method TailStaysMarked(bitmap: BitmapMgr)
    requires |bitmap.entries| == 2 && forall x: nat :: BitmapCount(bitmap.entries, x) == 0
    modifies bitmap
    ensures forall x: nat :: BitmapCount(bitmap.entries, x) == In(60, 4, x)
  {
    FreeAndReturn(bitmap, 60, 10);
  }

  lemma {:induction false} OnePushed(lists: seq<seq<nat>>, r: Extent)
    requires |lists| == CHUNK && 0 < r.len <= CHUNK && forall n | 0 <= n < CHUNK :: lists[n] == []
    ensures OneRun(PushAll(lists, [r]), r.start, r.len)
  {
    assert [r][..0] == [];
    assert PushAll(lists, []) == lists && PushAll(lists, [r]) == Push(lists, r.start, r.len);
  }

  lemma OneGivenBack(lists: seq<seq<nat>>, begin: nat, len: nat, e: seq<Word>, e': seq<Word>)
    requires OneRun(lists, begin, len) && 0 < len <= CHUNK && GivenBack(lists, e, e')
    ensures forall x: nat :: BitmapCount(e', x) == if Home(begin, len, x) then 1 else BitmapCount(e, x)
  {
    forall x: nat ensures HomeBlock(lists, CHUNK, 0, x) <==> Home(begin, len, x) {
      if Home(begin, len, x) { assert Home(lists[len - 1][0], len - 1 + 1, x); }
    }
  }
}
