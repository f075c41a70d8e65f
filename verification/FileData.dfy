/** Where the data of a write goes: the three kinds of transactions fill their
    destination blocks, which hold stale bytes at first, from the caller's buffer
    and from the blocks that they replace. */
module FileData {
  import opened Layout
  import opened ByteFile

  // Bytes in a run of 64 blocks, the longest that is allocated at once.
  const CHUNK_BYTES: nat := 262144

  /** Bytes `base ..` of the file, as many as `n` blocks hold. */
  function Pages(f: File, base: nat, n: nat): (w: seq<Byte>)
    ensures |w| == n * BLOCK_SIZE && forall p | 0 <= p < |w| :: w[p] == At(f, base + p)
  {
    seq(n * BLOCK_SIZE, p requires p >= 0 => At(f, base + p))
  }

  /* Memory. */

  type Ram = nat -> Byte

  /** `n` bytes of memory. */
  function Slice(ram: Ram, a: nat, n: nat): (s: seq<Byte>)
    ensures |s| == n && forall i | 0 <= i < n :: s[i] == ram(a + i)
  {
    seq(n, i requires i >= 0 => ram(a + i))
  }

  /** `memcpy` */
  function Store(ram: Ram, a: nat, src: seq<Byte>): Ram
  {
    (x: nat) => if a <= x < a + |src| then src[x - a] else ram(x)
  }

  // The destination of a write of `n` blocks: where its chunks of 64 blocks are.
  datatype Dest = Dest(chunks: seq<nat>, n: nat)

  /** The bytes of chunk `i` of `n` blocks. */
  function Room(n: nat, i: nat): nat
    requires i < ChunksFor(n)
  {
    Min(n - CHUNK * i, CHUNK) * BLOCK_SIZE
  }

  /** The address of byte `p` of the destination. */
  function Where(d: Dest, p: nat): nat
  {
    if p / CHUNK_BYTES < |d.chunks| then d.chunks[p / CHUNK_BYTES] + p % CHUNK_BYTES else 0
  }

  /** No two bytes of the destination are at the same address. */
  ghost predicate DestOk(d: Dest)
  {
    && |d.chunks| == ChunksFor(d.n)
    && forall p: nat, q: nat {:trigger Where(d, p), Where(d, q)} | p < q < d.n * BLOCK_SIZE ::
      Where(d, p) != Where(d, q)
  }

  ghost predicate InDest(d: Dest, x: nat)
  {
    exists p: nat :: p < d.n * BLOCK_SIZE && Where(d, p) == x
  }

  /** Memory changes in the destination only. */
  ghost predicate Outside(ram: Ram, ram': Ram, d: Dest)
  {
    forall x: nat | !InDest(d, x) :: ram'(x) == ram(x)
  }

  /** The destination holds the bytes `w`. */
  ghost predicate Holds(ram: Ram, d: Dest, w: seq<Byte>)
  {
    |w| == d.n * BLOCK_SIZE && forall p: nat {:trigger Where(d, p)} | p < |w| :: ram(Where(d, p)) == w[p]
  }

  ghost function Whole(ram: Ram, d: Dest): (w: seq<Byte>)
    ensures Holds(ram, d, w)
  {
    seq(d.n * BLOCK_SIZE, p requires p >= 0 => ram(Where(d, p)))
  }

  /** `src` over the bytes from `at` on. */
  function Put(w: seq<Byte>, at: nat, src: seq<Byte>): (w': seq<Byte>)
    requires at + |src| <= |w|
    ensures |w'| == |w|
  {
    w[..at] + src + w[at + |src|..]
  }

  lemma PutNext(w: seq<Byte>, at: nat, a: seq<Byte>, b: seq<Byte>)
    requires at + |a| + |b| <= |w|
    ensures Put(Put(w, at, a), at + |a|, b) == Put(w, at, a + b)
  {
  }

  /** No byte of the block at `a` is in the destination. */
  ghost predicate Clear(d: Dest, a: nat)
  {
    forall x: nat | a <= x < a + BLOCK_SIZE :: !InDest(d, x)
  }

  lemma ClearSlice(ram: Ram, ram': Ram, d: Dest, block: nat, from: nat, len: nat)
    requires Clear(d, block) && Outside(ram, ram', d) && block <= from && from + len <= block + BLOCK_SIZE
    ensures Slice(ram', from, len) == Slice(ram, from, len)
  {
    forall x: nat | block <= x < block + BLOCK_SIZE ensures ram'(x) == ram(x) {}
  }

  /** A copy into chunk `i` that stays inside it; `at` is its place in the whole,
      which held `w`. */
  method CopyIn(ram: Ram, d: Dest, i: nat, off: nat, src: seq<Byte>, ghost at: nat, ghost w: seq<Byte>)
    returns (ram': Ram, ghost w': seq<Byte>)
    requires DestOk(d) && i < |d.chunks| && off + |src| <= Room(d.n, i) && at == i * CHUNK_BYTES + off
    requires Holds(ram, d, w)
    ensures at + |src| <= |w| && w' == Put(w, at, src) && Holds(ram', d, w') && Outside(ram, ram', d)
  {
    ram' := Store(ram, d.chunks[i] + off, src);
    Hits(d, i, off, |src|, 0);
    w' := Put(w, at, src);
    forall p: nat | p < d.n * BLOCK_SIZE ensures ram'(Where(d, p)) == w'[p] {
      Hits(d, i, off, |src|, p);
    }
    forall x: nat | d.chunks[i] + off <= x < d.chunks[i] + off + |src| ensures InDest(d, x) {
      InChunk(d, i, x - d.chunks[i]);
    }
  }

  /** Exactly the bytes `off .. off + len - 1` of chunk `i` are in that part of memory. */
  lemma Hits(d: Dest, i: nat, off: nat, len: nat, p: nat)
    requires DestOk(d) && i < |d.chunks| && off + len <= Room(d.n, i)
    ensures i * CHUNK_BYTES + off + len <= d.n * BLOCK_SIZE
    ensures p < d.n * BLOCK_SIZE ==>
              (d.chunks[i] + off <= Where(d, p) < d.chunks[i] + off + len <==>
               i * CHUNK_BYTES + off <= p < i * CHUNK_BYTES + off + len)
    ensures i * CHUNK_BYTES + off <= p < i * CHUNK_BYTES + off + len ==>
        Where(d, p) == d.chunks[i] + (p - i * CHUNK_BYTES)
  {
    if i * CHUNK_BYTES + off <= p < i * CHUNK_BYTES + off + len {
      InChunk(d, i, p - i * CHUNK_BYTES);
    } else if p < d.n * BLOCK_SIZE && d.chunks[i] + off <= Where(d, p) < d.chunks[i] + off + len {
      InChunk(d, i, Where(d, p) - d.chunks[i]);
    }
  }

  lemma InChunk(d: Dest, i: nat, k: nat)
    requires DestOk(d) && i < |d.chunks| && k < Room(d.n, i)
    ensures i * CHUNK_BYTES + k < d.n * BLOCK_SIZE && Where(d, i * CHUNK_BYTES + k) == d.chunks[i] + k
  {
    assert (i * CHUNK_BYTES + k) / CHUNK_BYTES == i && (i * CHUNK_BYTES + k) % CHUNK_BYTES == k;
  }

  /** Copies `len` bytes from `from` on, in a block that no copy has changed. */
  method CopyOld(ghost ram0: Ram, ram: Ram, d: Dest, i: nat, off: nat, from: nat, len: nat, ghost block: nat,
                 ghost at: nat, ghost w: seq<Byte>)
    returns (ram': Ram, ghost w': seq<Byte>)
    requires DestOk(d) && i < |d.chunks| && off + len <= Room(d.n, i) && at == i * CHUNK_BYTES + off && Holds(ram, d, w)
    requires Clear(d, block) && block <= from && from + len <= block + BLOCK_SIZE && Outside(ram0, ram, d)
    ensures at + len <= |w| && w' == Put(w, at, Slice(ram0, from, len)) && Holds(ram', d, w') && Outside(ram0, ram', d)
  {
    ram', w' := ram, w;
    if len > 0 {
      ClearSlice(ram0, ram, d, block, from, len);
      ram', w' := CopyIn(ram, d, i, off, Slice(ram, from, len), at, w);
    } else {
      PutNone(w, at, Slice(ram0, from, len));
    }
  }

  /* The three kinds of writes. */

  /** An aligned write copies the buffer, chunk by chunk. */
  method FillAligned(ram: Ram, d: Dest, buf: seq<Byte>) returns (ram': Ram)
    requires DestOk(d) && d.n * BLOCK_SIZE == |buf|
    ensures Holds(ram', d, buf) && Outside(ram, ram', d)
  {
    ram' := ram;
    ghost var w := Whole(ram, d);
    var rest: nat, at: nat := |buf|, 0;
    for i := 0 to |d.chunks|
      invariant at == Min(i * CHUNK_BYTES, |buf|) && at + rest == |buf| && Outside(ram, ram', d)
      invariant Holds(ram', d, w) && w[..at] == buf[..at]
    {
      var num := Min(rest, CHUNK_BYTES);
      ghost var was := w;
      ram', w := CopyIn(ram', d, i, 0, buf[at..at + num], at, w);
      PutPrefix(was, w, at, buf, num);
      at, rest := at + num, rest - num;
    }
    assert w[..|buf|] == w && buf[..|buf|] == buf;
  }

  lemma PutPrefix(w: seq<Byte>, w': seq<Byte>, at: nat, buf: seq<Byte>, num: nat)
    requires at + num <= |buf| == |w| && w' == Put(w, at, buf[at..at + num]) && w[..at] == buf[..at]
    ensures w'[..at + num] == buf[..at + num]
  {
    assert w'[..at + num] == w[..at] + buf[at..at + num];
  }

  lemma PutNone(w: seq<Byte>, at: nat, src: seq<Byte>)
    requires src == [] && at <= |w|
    ensures Put(w, at, src) == w
  {
  }

  /** The buffer between what is left and what is right of it. */
  lemma PutAround(w: seq<Byte>, w1: seq<Byte>, w2: seq<Byte>, w3: seq<Byte>, left: seq<Byte>, buf: seq<Byte>,
                  right: seq<Byte>, skip: nat, end: nat)
    requires |left| == skip && end == skip + |buf| && |w| == end + |right|
    requires w1 == Put(w, skip, buf) && w2 == Put(w1, 0, left) && w3 == Put(w2, end, right)
    ensures w3 == left + buf + right
  {
  }

  /** A write inside one block keeps what is left and right of it in the block
      that it replaces, at address `src`. */
  method FillSingle(ram: Ram, d: Dest, local: nat, buf: seq<Byte>, src: nat) returns (ram': Ram)
    requires DestOk(d) && d.n == 1 && local + |buf| <= BLOCK_SIZE && Clear(d, src)
    ensures Holds(ram', d, SingleBytes(ram, src, local, buf)) && Outside(ram, ram', d)
  {
    var end := local + |buf|;
    var from, right := src + end, BLOCK_SIZE - end;
    ghost var w := Whole(ram, d);
    ghost var w1, w2, w3;
    ram', w1 := CopyIn(ram, d, 0, local, buf, local, w);
    ram', w2 := CopyOld(ram, ram', d, 0, 0, src, local, src, 0, w1);
    ram', w3 := CopyOld(ram, ram', d, 0, end, from, right, src, end, w2);
    PutAround(w, w1, w2, w3, Slice(ram, src, local), buf, Slice(ram, from, right), local, end);
    SingleParts(ram, src, local, buf, from, right);
  }

  ghost function SingleBytes(ram: Ram, src: nat, local: nat, buf: seq<Byte>): seq<Byte>
    requires local + |buf| <= BLOCK_SIZE
  {
    Slice(ram, src, local) + buf + Slice(ram, src + (local + |buf|), BLOCK_SIZE - (local + |buf|))
  }

  lemma SingleParts(ram: Ram, src: nat, local: nat, buf: seq<Byte>, from: nat, right: nat)
    requires local + |buf| + right == BLOCK_SIZE && from == src + (local + |buf|)
    ensures SingleBytes(ram, src, local, buf) == Slice(ram, src, local) + buf + Slice(ram, from, right)
  {
  }

  /** The block range of an unaligned write of several blocks. */
  datatype Span = Span(offset: nat, end: nat)

  ghost predicate SpanOk(s: Span)
  {
    s.offset < s.end && s.offset / BLOCK_SIZE < (s.end - 1) / BLOCK_SIZE
  }

  function Begin(s: Span): nat { s.offset / BLOCK_SIZE }
  function BeginFull(s: Span): nat { BlocksFor(s.offset) }
  function EndFull(s: Span): nat { s.end / BLOCK_SIZE }
  function NumBlocks(s: Span): nat
    requires s.offset <= s.end
  {
    BlocksFor(s.end) - Begin(s)
  }

  function FirstSize(s: Span): nat { AlignUp(s.offset) - s.offset }
  function LastSize(s: Span): nat { s.end - AlignDown(s.end) }

  lemma SpanFacts(s: Span)
    requires SpanOk(s)
    ensures Begin(s) <= BeginFull(s) <= Begin(s) + 1 && BeginFull(s) <= EndFull(s) < Begin(s) + NumBlocks(s) + 1
    ensures Begin(s) + NumBlocks(s) <= EndFull(s) + 1 && NumBlocks(s) >= 2
    ensures FirstSize(s) == BeginFull(s) * BLOCK_SIZE - s.offset < BLOCK_SIZE
        && LastSize(s) == s.end - EndFull(s) * BLOCK_SIZE < BLOCK_SIZE
    ensures BeginFull(s) == Begin(s) <==> FirstSize(s) == 0
    ensures EndFull(s) == Begin(s) + NumBlocks(s) <==> LastSize(s) == 0
    ensures FirstSize(s) + (EndFull(s) - BeginFull(s)) * BLOCK_SIZE + LastSize(s) == s.end - s.offset
  {
  }

  /** The chunks needed, and how far each one reaches. */
  lemma ChunkFacts(s: Span, i: nat)
    requires SpanOk(s) && i < ChunksFor(NumBlocks(s))
    ensures i + 1 < ChunksFor(NumBlocks(s)) ==> (i + 1) * CHUNK_BYTES <= (EndFull(s) - Begin(s)) * BLOCK_SIZE
    ensures i + 1 == ChunksFor(NumBlocks(s)) ==> NumBlocks(s) * BLOCK_SIZE <= (i + 1) * CHUNK_BYTES
  {
    SpanFacts(s);
  }

  /** Where the last block is in the last chunk. */
  function LastAt(s: Span): int
    requires s.offset <= s.end
  {
    (EndFull(s) - Begin(s)) * BLOCK_SIZE - (ChunksFor(NumBlocks(s)) - 1) * CHUNK_BYTES
  }

  /** The bytes of the last block behind the write. */
  function Tail(s: Span): nat { if LastSize(s) == 0 || LastSize(s) > BLOCK_SIZE then 0 else BLOCK_SIZE - LastSize(s) }

  /** The bytes that are copied from the first and from the last block. */
  function OldFirst(s: Span): (n: nat)
    requires SpanOk(s)
    ensures n == Skip(s)
  {
    if BeginFull(s) != Begin(s) then BLOCK_SIZE - FirstSize(s) else 0
  }

  function OldLast(s: Span): (n: nat)
    requires SpanOk(s)
    ensures n == Tail(s)
  {
    SpanFacts(s);
    if EndFull(s) != Begin(s) + NumBlocks(s) then BLOCK_SIZE - LastSize(s) else 0
  }

  lemma LastFacts(s: Span)
    requires SpanOk(s)
    ensures ChunksFor(NumBlocks(s)) > 0 && LastAt(s) >= 0
    ensures var room := Room(NumBlocks(s), ChunksFor(NumBlocks(s)) - 1);
            if LastSize(s) == 0 then LastAt(s) == room else LastAt(s) + BLOCK_SIZE == room
    ensures Room(NumBlocks(s), 0) >= 2 * BLOCK_SIZE
    ensures (ChunksFor(NumBlocks(s)) - 1) * CHUNK_BYTES + LastAt(s) == Hi(s)
    ensures Hi(s) == Skip(s) + (s.end - s.offset) - LastSize(s)
    ensures Skip(s) == if FirstSize(s) == 0 then 0 else BLOCK_SIZE - FirstSize(s)
    ensures FirstSize(s) < BLOCK_SIZE && LastSize(s) < BLOCK_SIZE && FirstSize(s) + LastSize(s) <= s.end - s.offset
    ensures Skip(s) + (s.end - s.offset) + Tail(s) == NumBlocks(s) * BLOCK_SIZE
  {
    SpanFacts(s);
  }

  /** Byte `p` of the destination is byte `p - Skip` of the buffer. */
  function Skip(s: Span): nat { s.offset - Begin(s) * BLOCK_SIZE }

  /** The full blocks' part of the destination. */
  function Lo(s: Span): nat { if BeginFull(s) < Begin(s) then 0 else (BeginFull(s) - Begin(s)) * BLOCK_SIZE }
  function Hi(s: Span): nat { if EndFull(s) < Begin(s) then 0 else (EndFull(s) - Begin(s)) * BLOCK_SIZE }

  /** The bytes of it that are left when it is chunk `i`'s turn. */
  function RestAt(s: Span, i: nat): int
    requires s.offset <= s.end
  {
    if i == 0 then Hi(s) - Lo(s) else if i == ChunksFor(NumBlocks(s)) then 0 else Hi(s) - i * CHUNK_BYTES
  }

  /** Where in chunk `i` its full blocks go, and how many bytes they have. No copy
      leaves the chunk that it belongs to. */
  method FullPart(s: Span, i: nat, rest: nat) returns (off: nat, num: nat)
    requires SpanOk(s) && i < ChunksFor(NumBlocks(s)) && rest == RestAt(s, i)
    ensures i * CHUNK_BYTES + off == Hi(s) - rest
    ensures num <= rest && off + num <= Room(NumBlocks(s), i)
    ensures rest - num == RestAt(s, i + 1)
  {
    SpanFacts(s);
    ChunkFacts(s, i);
    var chunks := ChunksFor(NumBlocks(s));
    off := 0;
    if i == 0 {
      off := off + (BeginFull(s) - Begin(s)) * BLOCK_SIZE;
    }
    num := rest;
    if chunks > 1 {
      if i == 0 && BeginFull(s) != Begin(s) {
        num := CHUNK_BYTES - BLOCK_SIZE;
      } else if i < chunks - 1 {
        num := CHUNK_BYTES;
      }
    }
  }

  /** The full blocks' part of the buffer. */
  function Middle(s: Span, buf: seq<Byte>): seq<Byte>
    requires SpanOk(s) && |buf| == s.end - s.offset
  {
    SpanFacts(s);
    buf[FirstSize(s)..|buf| - LastSize(s)]
  }

  lemma MiddleFacts(s: Span, buf: seq<Byte>)
    requires SpanOk(s) && |buf| == s.end - s.offset
    ensures |Middle(s, buf)| == Hi(s) - Lo(s) && Hi(s) <= NumBlocks(s) * BLOCK_SIZE && ChunksFor(NumBlocks(s)) > 0
  {
    SpanFacts(s);
  }

  /** Copies the blocks that the buffer covers completely. */
  method FillFull(ram: Ram, d: Dest, s: Span, buf: seq<Byte>, ghost w: seq<Byte>)
    returns (ram': Ram, ghost w': seq<Byte>)
    requires SpanOk(s) && |buf| == s.end - s.offset && DestOk(d) && d.n == NumBlocks(s) && Holds(ram, d, w)
    ensures Lo(s) + |Middle(s, buf)| <= |w|
    ensures w' == Put(w, Lo(s), Middle(s, buf)) && Holds(ram', d, w') && Outside(ram, ram', d)
  {
    MiddleFacts(s, buf);
    ram', w' := ram, w;
    var rest: nat := Hi(s) - Lo(s);
    ghost var part := Middle(s, buf);
    PutNone(w, Lo(s), part[..0]);
    if rest > 0 {
      var i := 0;
      while i < |d.chunks|
        invariant i <= |d.chunks| && rest == RestAt(s, i) && rest <= |part|
        invariant w' == Put(w, Lo(s), part[..|part| - rest]) && Holds(ram', d, w') && Outside(ram, ram', d)
      {
        ram', rest, w' := FullTurn(ram', d, s, buf, i, rest, w, w');
        i := i + 1;
      }
    }
    assert part[..|part|] == part;
  }

  /** One turn of the loop: the full blocks of chunk `i`. */
  method FullTurn(ram: Ram, d: Dest, s: Span, buf: seq<Byte>, i: nat, rest: nat, ghost w0: seq<Byte>,
                  ghost w: seq<Byte>)
    returns (ram': Ram, rest': nat, ghost w': seq<Byte>)
    requires SpanOk(s) && |buf| == s.end - s.offset && DestOk(d) && d.n == NumBlocks(s) && Holds(ram, d, w)
    requires i < |d.chunks| && rest == RestAt(s, i) && rest <= |Middle(s, buf)| && Lo(s) + |Middle(s, buf)| <= |w0|
    requires w == Put(w0, Lo(s), Middle(s, buf)[..|Middle(s, buf)| - rest])
    ensures rest' == RestAt(s, i + 1) && rest' <= rest && Holds(ram', d, w') && Outside(ram, ram', d)
    ensures w' == Put(w0, Lo(s), Middle(s, buf)[..|Middle(s, buf)| - rest'])
  {
    MiddleFacts(s, buf);
    var off, num := FullPart(s, i, rest);
    var part := Middle(s, buf);
    var done := |part| - rest;
    ram', w' := CopyIn(ram, d, i, off, part[done..done + num], Lo(s) + done, w);
    PutNext(w0, Lo(s), part[..done], part[done..done + num]);
    assert part[..done] + part[done..done + num] == part[..done + num];
    rest' := rest - num;
  }

  /** The buffer's part of the destination: full blocks, then the two ends. */
  method FillBuffer(ram: Ram, d: Dest, s: Span, buf: seq<Byte>, ghost w: seq<Byte>)
    returns (ram': Ram, ghost w': seq<Byte>)
    requires SpanOk(s) && |buf| == s.end - s.offset && DestOk(d) && d.n == NumBlocks(s) && Holds(ram, d, w)
    ensures Skip(s) + |buf| <= |w| && w' == Put(w, Skip(s), buf) && Holds(ram', d, w') && Outside(ram, ram', d)
  {
    LastFacts(s);
    var first, last := FirstSize(s), LastSize(s);
    ghost var w1, w2;
    ram', w1 := FillFull(ram, d, s, buf, w);
    ram', w2 := CopyIn(ram', d, 0, BLOCK_SIZE - first, buf[..first], BLOCK_SIZE - first, w1);
    ram', w' := CopyIn(ram', d, |d.chunks| - 1, LastAt(s), buf[|buf| - last..], Hi(s), w2);
    BufferPuts(w, w1, w2, w', buf, Skip(s), first, last, Lo(s), BLOCK_SIZE - first, Hi(s));
  }

  lemma BufferPuts(w: seq<Byte>, w1: seq<Byte>, w2: seq<Byte>, w3: seq<Byte>, buf: seq<Byte>, skip: nat, first: nat,
                   last: nat, lo: nat, at: nat, hi: nat)
    requires first + last <= |buf| && at <= |w| && skip + |buf| <= |w|
    requires lo == skip + first && hi == skip + (|buf| - last) && (first > 0 ==> at == skip)
    requires w1 == Put(w, lo, buf[first..|buf| - last])
    requires at + first <= |w| && w2 == Put(w1, at, buf[..first]) && w3 == Put(w2, hi, buf[|buf| - last..])
    ensures w3 == Put(w, skip, buf)
  {
    if first == 0 { PutNone(w1, at, buf[..first]); }
  }

  /** A write of several blocks, the first and last of which may be partial: their
      other parts come from the blocks that they replace, at the addresses
      `srcFirst` and `srcLast`. */
  method FillMulti(ram: Ram, d: Dest, s: Span, buf: seq<Byte>, srcFirst: nat, srcLast: nat) returns (ram': Ram)
    requires SpanOk(s) && |buf| == s.end - s.offset && DestOk(d) && d.n == NumBlocks(s)
    requires Clear(d, srcFirst) && Clear(d, srcLast)
    ensures Holds(ram', d, MultiBytes(ram, s, buf, srcFirst, srcLast)) && Outside(ram, ram', d)
  {
    LastFacts(s);
    var left, right, from := OldFirst(s), OldLast(s), srcLast + LastSize(s);
    ghost var w, end := Whole(ram, d), Skip(s) + |buf|;
    ghost var w1, w2, w3;
    ram', w1 := FillBuffer(ram, d, s, buf, w);
    ram', w2 := CopyOld(ram, ram', d, 0, 0, srcFirst, left, srcFirst, 0, w1);
    ram', w3 := CopyOld(ram, ram', d, |d.chunks| - 1, LastAt(s) + LastSize(s), from, right, srcLast, end, w2);
    PutAround(w, w1, w2, w3, Slice(ram, srcFirst, left), buf, Slice(ram, from, right), Skip(s), end);
    MultiParts(ram, s, buf, srcFirst, srcLast, left, from, right);
  }

  lemma MultiParts(ram: Ram, s: Span, buf: seq<Byte>, srcFirst: nat, srcLast: nat, left: nat, from: nat, right: nat)
    requires left == Skip(s) && from == srcLast + LastSize(s) && right == Tail(s)
    ensures MultiBytes(ram, s, buf, srcFirst, srcLast) == Slice(ram, srcFirst, left) + buf + Slice(ram, from, right)
  {
  }

  ghost function MultiBytes(ram: Ram, s: Span, buf: seq<Byte>, srcFirst: nat, srcLast: nat): seq<Byte>
  {
    Slice(ram, srcFirst, Skip(s)) + buf + Slice(ram, srcLast + LastSize(s), Tail(s))
  }
}
