/** Where blocks are in memory: the file is mapped piecewise, on demand, and the
    addresses of the pieces are cached. */
module MemTable {
  import opened Layout

  /* Placements. */

  // Where the pieces of a file are mapped: the first one, of `first` blocks, at
  // `base`, and the later ones wherever the kernel puts them. `zero` is the
  // address of an empty block, which is read in place of a hole.
  datatype Placement = Placement(first: nat, base: nat, pieces: nat -> nat, zero: nat)

  /** The address of a block; block 0 stands for a hole. */
  function AddrOf(p: Placement, l: nat): nat
  {
    if l == 0 then p.zero
    else if l < p.first then p.base + l * BLOCK_SIZE
    else p.pieces((l - p.first) / GROW) + l % GROW * BLOCK_SIZE
  }

  function Addr(p: Placement): nat -> nat { (l: nat) => AddrOf(p, l) }

  /** No two blocks overlap in memory. */
  ghost predicate Apart(addr: nat -> nat)
  {
    forall l: nat, m: nat | l != m :: addr(l) + BLOCK_SIZE <= addr(m) || addr(m) + BLOCK_SIZE <= addr(l)
  }

  /** The run can be filled through the address of its first block. */
  predicate Contiguous(addr: nat -> nat, begin: nat, len: nat)
  {
    forall l: nat | begin <= l < begin + len :: addr(l) == addr(begin) + (l - begin) * BLOCK_SIZE
  }

  lemma OnePieceIsContiguous(p: Placement, begin: nat, len: nat)
    requires p.first % GROW == 0 && begin > 0 && InOnePiece(p.first, begin, len)
    ensures Contiguous(Addr(p), begin, len)
  {
    forall l: nat | begin <= l < begin + len ensures AddrOf(p, l) == AddrOf(p, begin) + (l - begin) * BLOCK_SIZE {
      if begin + len > p.first {
        SamePiece(p.first, begin, len, l - begin);
      }
    }
  }

  lemma SamePiece(first: nat, begin: nat, len: nat, k: nat)
    requires first % GROW == 0 && k < len && begin / GROW == (begin + len - 1) / GROW && begin + len > first
    ensures begin >= first && (begin + k - first) / GROW == (begin - first) / GROW
    ensures (begin + k) % GROW == begin % GROW + k
  {
    assert begin / GROW == (begin + k) / GROW;
  }

  /** A placement in which no piece follows another one in memory. */
  function Spread(first: nat): Placement
  {
    Placement(first, BLOCK_SIZE, q => (1 + first + GROW * (2 * q + 1)) * BLOCK_SIZE, 0)
  }

  /** The number of a block's place there, counted in blocks. */
  function SpreadSlot(first: nat, l: nat): nat
  {
    if l == 0 then 0 else if l < first then 1 + l else 1 + first + GROW * (2 * ((l - first) / GROW) + 1) + l % GROW
  }

  lemma SpreadAddr(first: nat, l: nat)
    ensures AddrOf(Spread(first), l) == SpreadSlot(first, l) * BLOCK_SIZE
  {
  }

  lemma SpreadSlots(first: nat, l: nat, m: nat)
    requires first % GROW == 0 && l < m
    ensures SpreadSlot(first, l) < SpreadSlot(first, m)
  {
    if l >= first {
      var a, b := (l - first) / GROW, (m - first) / GROW;
      assert l == first + GROW * a + l % GROW && m == first + GROW * b + m % GROW;
    }
  }

  lemma SpreadIsApart(first: nat)
    requires first % GROW == 0
    ensures Apart(Addr(Spread(first)))
  {
    var addr := Addr(Spread(first));
    forall l: nat, m: nat | l != m ensures addr(l) + BLOCK_SIZE <= addr(m) || addr(m) + BLOCK_SIZE <= addr(l) {
      SpreadAddr(first, l);
      SpreadAddr(first, m);
      if l < m { SpreadSlots(first, l, m); } else { SpreadSlots(first, m, l); }
    }
  }

  /** Where a run leaves its first piece, the next block is somewhere else. */
  lemma SpreadBreaks(first: nat, begin: nat, len: nat) returns (k: nat)
    requires first % GROW == 0 && begin > 0 && !InOnePiece(first, begin, len)
    ensures 0 < k < len && AddrOf(Spread(first), begin + k) >= AddrOf(Spread(first), begin) + (k + GROW) * BLOCK_SIZE
    ensures InOnePiece(first, begin, k)
  {
    if begin < first {
      k := first - begin;
    } else {
      k := GROW - begin % GROW;
      assert begin % GROW + len - 1 >= GROW;
      assert (begin + k - 1) / GROW == begin / GROW && (begin + k) % GROW == 0;
      assert (begin + k - first) / GROW == (begin - first) / GROW + 1;
    }
    SpreadAddr(first, begin);
    SpreadAddr(first, begin + k);
  }

  /** A run can be filled through its first block's address wherever the pieces are. */
  ghost predicate AlwaysContiguous(first: nat, begin: nat, len: nat)
  {
    forall p: Placement | p.first == first && Apart(Addr(p)) :: Contiguous(Addr(p), begin, len)
  }

  /** That is so exactly if the run lies in one piece. */
  lemma ContiguousIff(first: nat, begin: nat, len: nat)
    requires first % GROW == 0 && begin > 0
    ensures AlwaysContiguous(first, begin, len) <==> InOnePiece(first, begin, len)
  {
    if InOnePiece(first, begin, len) {
      forall p: Placement | p.first == first && Apart(Addr(p)) ensures Contiguous(Addr(p), begin, len) {
        OnePieceIsContiguous(p, begin, len);
      }
    } else {
      CrossingIsNot(first, begin, len);
    }
  }

  lemma CrossingIsNot(first: nat, begin: nat, len: nat)
    requires first % GROW == 0 && begin > 0 && !InOnePiece(first, begin, len)
    ensures Apart(Addr(Spread(first))) && Spread(first).first == first && !Contiguous(Addr(Spread(first)), begin, len)
  {
    SpreadIsApart(first);
    var k := SpreadBreaks(first, begin, len);
    var addr := Addr(Spread(first));
    assert addr(begin + k) != addr(begin) + k * BLOCK_SIZE;
  }

  /* The cache. */

  // A piece of the file that is mapped: `len` blocks from file block `block` on
  // are at address `base`.
  datatype Region = Region(base: nat, block: nat, len: nat)

  /** Address `a` shows file block `i`. */
  ghost predicate Shows(regions: seq<Region>, a: nat, i: nat)
  {
    exists k :: 0 <= k < |regions| && ShowsIn(regions[k], a, i)
  }

  predicate ShowsIn(r: Region, a: nat, i: nat)
  {
    r.block <= i < r.block + r.len && a == r.base + (i - r.block) * BLOCK_SIZE
  }

  function RoundUp(blocks: nat): nat { (blocks + GROW - 1) / GROW * GROW }

  function Cached(table: seq<nat>, q: nat): nat { if q < |table| then table[q] else 0 }

  /** A cached piece starts where its index says. */
  ghost predicate CacheOk(regions: seq<Region>, first: nat, table: seq<nat>)
  {
    forall k | 0 <= k < |table| && table[k] != 0 :: Region(table[k], first + GROW * k, GROW) in regions
  }

  /** Pieces once mapped stay where they are. */
  ghost predicate Stays(before: seq<nat>, after: seq<nat>)
  {
    forall q: nat | Cached(before, q) != 0 :: Cached(after, q) == Cached(before, q)
  }

  class MemTable {
    var firstBase: nat
    var firstBlocks: nat
    var table: seq<nat>          // address of each later piece, 0 if not mapped yet
    var numBlocks: nat           // blocks of the file that the meta block knows of
    var fileBlocks: nat          // blocks that the file has
    ghost var regions: seq<Region>

    ghost predicate Valid()
      reads this
    {
      && firstBlocks % GROW == 0 && firstBlocks <= fileBlocks && fileBlocks % GROW == 0 && numBlocks <= fileBlocks
      && Region(firstBase, 0, firstBlocks) in regions && CacheOk(regions, firstBlocks, table)
      && (forall k | 0 <= k < |table| && table[k] != 0 :: firstBlocks + GROW * (k + 1) <= fileBlocks)
    }

    /** The placement so far, with an empty block at `zero`. */
    ghost function Place(zero: nat): Placement
      reads this
    {
      var t := table;
      Placement(firstBlocks, firstBase, q => Cached(t, q), zero)
    }

    /** Opens a file of `size` bytes, `recorded` blocks of which are known to the
        meta block, with its mapping at `base`. A file that is empty or no multiple
        of the growth unit is extended first, as little as possible, which the meta
        block then knows. */
    constructor (size: nat, recorded: nat, base: nat)
      requires recorded * BLOCK_SIZE <= size
      ensures Valid() && firstBase == base && table == [] && size <= fileBlocks * BLOCK_SIZE
      ensures firstBlocks == fileBlocks > 0 && (fileBlocks == GROW || (fileBlocks - GROW) * BLOCK_SIZE < size)
      ensures numBlocks == if size == fileBlocks * BLOCK_SIZE then recorded else Max(recorded, fileBlocks)
    {
      var unit := GROW * BLOCK_SIZE;
      var grow := size == 0 || size % unit != 0;
      var blocks := if size == 0 then GROW else (size + unit - 1) / unit * GROW;
      firstBase, firstBlocks, table := base, blocks, [];
      fileBlocks, numBlocks := blocks, if grow then Max(recorded, blocks) else recorded;
      regions := [Region(base, 0, blocks)];
      new;
      assert regions[0] == Region(base, 0, blocks);
    }

    /** `lidx_to_addr_rw`: the address of block `i`, or 0 for block 0. `newBase` is
        where the kernel would map the next piece. */
    method LidxToAddr(i: nat, newBase: nat) returns (a: nat)
      requires Valid() && newBase != 0
      modifies this
      ensures Valid() && firstBlocks == old(firstBlocks) && firstBase == old(firstBase)
      ensures old(regions) <= regions && old(fileBlocks) <= fileBlocks && Stays(old(table), table)
      ensures i == 0 ==> a == 0 && regions == old(regions)
      ensures i > 0 ==> Shows(regions, a, i) && i < fileBlocks && a == AddrOf(Place(0), i)
    {
      if i == 0 { return 0; }
      if i < firstBlocks {
        Found(regions, Region(firstBase, 0, firstBlocks), firstBase + i * BLOCK_SIZE, i);
        return firstBase + i * BLOCK_SIZE;
      }
      var chunk, local := (i - firstBlocks) / GROW, i % GROW;
      ChunkOf(firstBlocks, i);
      if chunk < |table| {
        if table[chunk] != 0 {
          a := table[chunk] + local * BLOCK_SIZE;
          Found(regions, Region(table[chunk], firstBlocks + GROW * chunk, GROW), a, i);
          return;
        }
      } else {
        table := table + seq(NextPow2(chunk) - |table|, _ => 0);
      }
      a := MapPiece(i, newBase);
    }

    /** The slow path: maps the piece of block `i`, which is not mapped yet. */
    method MapPiece(i: nat, newBase: nat) returns (a: nat)
      requires Valid() && newBase != 0 && firstBlocks <= i && (i - firstBlocks) / GROW < |table|
      requires table[(i - firstBlocks) / GROW] == 0
      modifies this
      ensures Valid() && firstBlocks == old(firstBlocks) && firstBase == old(firstBase)
      ensures old(regions) <= regions && old(fileBlocks) <= fileBlocks && Stays(old(table), table)
      ensures Shows(regions, a, i) && i < fileBlocks && (i > 0 ==> a == AddrOf(Place(0), i))
    {
      var chunk, local := (i - firstBlocks) / GROW, i % GROW;
      ChunkOf(firstBlocks, i);
      GrowToFit(i);
      var begin := i - local;
      regions := regions + [Region(newBase, begin, GROW)];
      CacheGrows(old(regions), regions, firstBlocks, table);
      table := table[chunk := newBase];
      a := newBase + local * BLOCK_SIZE;
      assert regions[|regions| - 1] == Region(newBase, begin, GROW);
      Found(regions, Region(newBase, begin, GROW), a, i);
    }

    /** Extends the file so that the piece of block `i` exists. */
    method GrowToFit(i: nat)
      requires fileBlocks % GROW == 0 && numBlocks <= fileBlocks
      modifies this`numBlocks, this`fileBlocks
      ensures fileBlocks % GROW == 0 && numBlocks <= fileBlocks && old(fileBlocks) <= fileBlocks
      ensures i / GROW * GROW + GROW <= fileBlocks && i < numBlocks
      ensures i < old(numBlocks) ==> fileBlocks == old(fileBlocks) && numBlocks == old(numBlocks)
      ensures fileBlocks == old(fileBlocks) || fileBlocks == i / GROW * GROW + GROW
      ensures numBlocks == old(numBlocks) || numBlocks == i / GROW * GROW + GROW
    {
      if i < numBlocks { return; }
      fileBlocks := Max(fileBlocks, RoundUp(i + 1));
      numBlocks := Max(numBlocks, RoundUp(i + 1));
    }
  }

  lemma Found(regions: seq<Region>, r: Region, a: nat, i: nat)
    requires r in regions && ShowsIn(r, a, i)
    ensures Shows(regions, a, i)
  {
  }

  /** The piece of block `i` and its place in it, because the first piece is a
      multiple of the growth unit. */
  lemma ChunkOf(first: nat, i: nat)
    requires first % GROW == 0 && first <= i
    ensures var chunk := (i - first) / GROW;
            && first + GROW * chunk == i - i % GROW == i / GROW * GROW
            && first + GROW * (chunk + 1) == i / GROW * GROW + GROW
  {
  }

  lemma CacheGrows(regions: seq<Region>, regions': seq<Region>, first: nat, table: seq<nat>)
    requires CacheOk(regions, first, table) && regions <= regions'
    ensures CacheOk(regions', first, table)
  {
    forall r | r in regions ensures r in regions' {}
  }
}
