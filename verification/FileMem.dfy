/** The blocks of an extent in memory: a chunk is filled through the address of
    its first block. */
module FileMem {
  import opened Layout
  import opened FileData
  import opened Replay
  import opened MemTable
  import BF = ByteFile

  /** What is in memory at a block's address; block 0 stands for a hole. */
  function BlockOf(ram: Ram, addr: nat -> nat, l: nat): (b: BF.Block) { Slice(ram, addr(l), BLOCK_SIZE) }

  /** The `k`th block of an extent. */
  function Nth(lidxs: seq<nat>, k: nat): nat { if k / CHUNK < |lidxs| then ChunkBlock(lidxs, k) else 0 }

  /** The blocks of chunk `i`. */
  function ChunkLen(n: nat, i: nat): nat
    requires i < ChunksFor(n)
  {
    Min(n - CHUNK * i, CHUNK)
  }

  /** Every chunk can be filled through its first block's address. */
  predicate Fillable(addr: nat -> nat, lidxs: seq<nat>, n: nat)
  {
    |lidxs| == ChunksFor(n) && forall i: nat | i < |lidxs| :: Contiguous(addr, lidxs[i], ChunkLen(n, i))
  }

  ghost predicate Different(lidxs: seq<nat>, n: nat)
  {
    forall j, k | 0 <= j < k < n :: Nth(lidxs, j) != Nth(lidxs, k)
  }

  ghost predicate Elsewhere(lidxs: seq<nat>, n: nat, x: nat) { forall k | 0 <= k < n :: Nth(lidxs, k) != x }

  function DestOf(addr: nat -> nat, lidxs: seq<nat>, n: nat): Dest
  {
    Dest(seq(|lidxs|, i requires 0 <= i < |lidxs| => addr(lidxs[i])), n)
  }

  /** Byte `r` of block `k` of the destination is in the block that it belongs to. */
  lemma InItsBlock(addr: nat -> nat, lidxs: seq<nat>, n: nat, k: nat, r: nat)
    requires Fillable(addr, lidxs, n) && k < n && r < BLOCK_SIZE
    ensures Where(DestOf(addr, lidxs, n), k * BLOCK_SIZE + r) == addr(Nth(lidxs, k)) + r
  {
    var d, i, j := DestOf(addr, lidxs, n), k / CHUNK, k % CHUNK;
    ByteAt(d, k, r, i, j);
    assert Contiguous(addr, lidxs[i], ChunkLen(n, i)) && addr(lidxs[i] + j) == addr(lidxs[i]) + j * BLOCK_SIZE;
  }

  lemma ByteAt(d: Dest, k: nat, r: nat, i: nat, j: nat)
    requires |d.chunks| == ChunksFor(d.n) && k < d.n && r < BLOCK_SIZE && k == CHUNK * i + j && j < CHUNK
    ensures i < |d.chunks| && j < ChunkLen(d.n, i)
    ensures Where(d, k * BLOCK_SIZE + r) == d.chunks[i] + j * BLOCK_SIZE + r
  {
    var p := k * BLOCK_SIZE + r;
    assert p == CHUNK_BYTES * i + (j * BLOCK_SIZE + r);
    assert p / CHUNK_BYTES == i && p % CHUNK_BYTES == j * BLOCK_SIZE + r;
  }

  lemma BlockAt(addr: nat -> nat, lidxs: seq<nat>, n: nat, p: nat) returns (k: nat, r: nat)
    requires Fillable(addr, lidxs, n) && p < n * BLOCK_SIZE
    ensures k < n && r < BLOCK_SIZE && p == k * BLOCK_SIZE + r
    ensures Where(DestOf(addr, lidxs, n), p) == addr(Nth(lidxs, k)) + r
  {
    k, r := p / BLOCK_SIZE, p % BLOCK_SIZE;
    InItsBlock(addr, lidxs, n, k, r);
  }

  lemma FillableIsDest(addr: nat -> nat, lidxs: seq<nat>, n: nat)
    requires Apart(addr) && Fillable(addr, lidxs, n) && Different(lidxs, n)
    ensures DestOk(DestOf(addr, lidxs, n))
  {
    var d := DestOf(addr, lidxs, n);
    forall p: nat, q: nat | p < q < n * BLOCK_SIZE ensures Where(d, p) != Where(d, q) {
      var j, a := BlockAt(addr, lidxs, n, p);
      var k, b := BlockAt(addr, lidxs, n, q);
      assert j < k ==> Nth(lidxs, j) != Nth(lidxs, k);
    }
  }

  /** No other block overlaps the destination. */
  lemma OthersAreClear(addr: nat -> nat, lidxs: seq<nat>, n: nat, x: nat)
    requires Apart(addr) && Fillable(addr, lidxs, n) && Elsewhere(lidxs, n, x)
    ensures Clear(DestOf(addr, lidxs, n), addr(x))
  {
    var d := DestOf(addr, lidxs, n);
    forall p: nat | p < n * BLOCK_SIZE
      ensures Where(d, p) < addr(x) || addr(x) + BLOCK_SIZE <= Where(d, p)
    {
      var k, r := BlockAt(addr, lidxs, n, p);
      assert Nth(lidxs, k) != x;
    }
  }

  /** The extent's blocks hold `bytes`; no other block changes. */
  ghost predicate Installed(ram: Ram, ram': Ram, addr: nat -> nat, lidxs: seq<nat>, n: nat, bytes: seq<Byte>)
  {
    && |bytes| == n * BLOCK_SIZE
    && (forall k | 0 <= k < n :: HoldsPart(ram', addr, Nth(lidxs, k), bytes, k))
    && (forall x: nat | Elsewhere(lidxs, n, x) :: BlockOf(ram', addr, x) == BlockOf(ram, addr, x))
  }

  ghost predicate HoldsPart(ram: Ram, addr: nat -> nat, x: nat, bytes: seq<Byte>, k: nat)
  {
    (k + 1) * BLOCK_SIZE <= |bytes| && BlockOf(ram, addr, x) == bytes[k * BLOCK_SIZE..(k + 1) * BLOCK_SIZE]
  }

  /** Filling the chunks fills the blocks, and no others. */
  lemma FilledBlocks(ram: Ram, ram': Ram, addr: nat -> nat, lidxs: seq<nat>, n: nat, bytes: seq<Byte>)
    requires Apart(addr) && Fillable(addr, lidxs, n)
    requires Holds(ram', DestOf(addr, lidxs, n), bytes) && Outside(ram, ram', DestOf(addr, lidxs, n))
    ensures Installed(ram, ram', addr, lidxs, n, bytes)
  {
    forall k | 0 <= k < n ensures HoldsPart(ram', addr, Nth(lidxs, k), bytes, k) {
      FilledBlock(ram', addr, lidxs, n, bytes, k);
    }
    forall x: nat | Elsewhere(lidxs, n, x) ensures BlockOf(ram', addr, x) == BlockOf(ram, addr, x) {
      OthersAreClear(addr, lidxs, n, x);
      ClearSlice(ram, ram', DestOf(addr, lidxs, n), addr(x), addr(x), BLOCK_SIZE);
    }
  }

  lemma FilledBlock(ram: Ram, addr: nat -> nat, lidxs: seq<nat>, n: nat, bytes: seq<Byte>, k: nat)
    requires Fillable(addr, lidxs, n) && Holds(ram, DestOf(addr, lidxs, n), bytes) && k < n
    ensures HoldsPart(ram, addr, Nth(lidxs, k), bytes, k)
  {
    var block, part := BlockOf(ram, addr, Nth(lidxs, k)), bytes[k * BLOCK_SIZE..(k + 1) * BLOCK_SIZE];
    forall i: nat | i < BLOCK_SIZE ensures block[i] == part[i] {
      FilledByte(ram, addr, lidxs, n, bytes, k, i);
    }
  }

  lemma FilledByte(ram: Ram, addr: nat -> nat, lidxs: seq<nat>, n: nat, bytes: seq<Byte>, k: nat, i: nat)
    requires Fillable(addr, lidxs, n) && Holds(ram, DestOf(addr, lidxs, n), bytes) && k < n && i < BLOCK_SIZE
    ensures ram(addr(Nth(lidxs, k)) + i) == bytes[k * BLOCK_SIZE + i]
  {
    InItsBlock(addr, lidxs, n, k, i);
  }

  /** A run that leaves its piece: there is a placement in which some block of it
      is not written, whatever is copied. */
  lemma CrossingLeaves(first: nat, begin: nat, len: nat, ram: Ram, ram': Ram) returns (k: nat)
    requires first % GROW == 0 && begin > 0 && len <= CHUNK && !InOnePiece(first, begin, len)
    requires Outside(ram, ram', DestOf(Addr(Spread(first)), [begin], len))
    ensures k < len && BlockOf(ram', Addr(Spread(first)), begin + k) == BlockOf(ram, Addr(Spread(first)), begin + k)
  {
    var addr := Addr(Spread(first));
    var d := DestOf(addr, [begin], len);
    k := SpreadBreaks(first, begin, len);
    var a := addr(begin + k);
    forall p: nat | p < len * BLOCK_SIZE ensures Where(d, p) < a { assert Where(d, p) == addr(begin) + p; }
    ClearSlice(ram, ram', d, a, a, BLOCK_SIZE);
  }
}
