/** The reference file: a byte array with the write and read rules of
    IEEE Std 1003.1-2017 (`write()`, `read()`, and the gap rule of `lseek()`). */
module ByteFile {
  import opened Layout

  type File = seq<Byte>

  datatype Update = Update(offset: nat, data: seq<Byte>)

  /** The byte at `p`; everything past the end reads as zero. */
  function At(f: File, p: nat): Byte { if p < |f| then f[p] else 0 }

  function Write(f: File, u: Update): File
  {
    if u.data == [] then f else
    seq(Max(|f|, u.offset + |u.data|), p requires p >= 0 =>
      if u.offset <= p < u.offset + |u.data| then u.data[p - u.offset] else At(f, p))
  }

  function Read(f: File, offset: nat, count: nat): seq<Byte>
  {
    if offset < |f| then f[offset..Min(offset + count, |f|)] else []
  }

  /** The file after the updates of `us`, first to last. */
  function Replay(us: seq<Update>): File
  {
    if us == [] then [] else Write(Replay(us[..|us| - 1]), us[|us| - 1])
  }

  /** The block-sized window of the file at block index `v`. */
  function Page(f: File, v: nat): Block
  {
    seq(BLOCK_SIZE, i requires i >= 0 => At(f, v * BLOCK_SIZE + i))
  }

  function Zeros(): seq<Byte> { seq(BLOCK_SIZE, _ => 0) }

  type Block = b: seq<Byte> | |b| == BLOCK_SIZE witness Zeros()

  lemma PageOfEmpty(v: nat)
    ensures Page([], v) == Zeros()
  {
    var got, want := Page([], v), Zeros();
    forall i | 0 <= i < BLOCK_SIZE ensures got[i] == want[i] { assert got[i] == At([], v * BLOCK_SIZE + i); }
  }

  /** `data` laid over `block` from position `lo` on. */
  function Overlay(block: Block, lo: nat, data: seq<Byte>): Block
    requires lo + |data| <= BLOCK_SIZE
  {
    block[..lo] + data + block[lo + |data|..]
  }

  lemma WriteAt(f: File, u: Update, p: nat)
    requires u.data != []
    ensures At(Write(f, u), p) == if u.offset <= p < u.offset + |u.data| then u.data[p - u.offset] else At(f, p)
  {
  }

  /** What was written is read back, a gap behind the old end reads as zeros, and
      all other bytes stay. */
  lemma ReadBack(f: File, u: Update, p: nat)
    requires u.data != []
    ensures Read(Write(f, u), u.offset, |u.data|) == u.data
    ensures |f| <= p < u.offset ==> Write(f, u)[p] == 0
    ensures p < |f| && !(u.offset <= p < u.offset + |u.data|) ==> Write(f, u)[p] == f[p]
  {
    var got := Read(Write(f, u), u.offset, |u.data|);
    forall i | 0 <= i < |u.data| ensures got[i] == u.data[i] {
      WriteAt(f, u, u.offset + i);
    }
  }

  /** A write inside one block lays its data over that block's window. */
  lemma WriteSamePage(f: File, v: nat, lo: nat, data: seq<Byte>)
    requires data != [] && lo + |data| <= BLOCK_SIZE
    ensures Page(Write(f, Update(v * BLOCK_SIZE + lo, data)), v) == Overlay(Page(f, v), lo, data)
  {
    var u := Update(v * BLOCK_SIZE + lo, data);
    var got, want := Page(Write(f, u), v), Overlay(Page(f, v), lo, data);
    forall i | 0 <= i < BLOCK_SIZE
      ensures got[i] == want[i]
    {
      WriteAt(f, u, v * BLOCK_SIZE + i);
    }
  }

  /** ... and leaves every other window alone. */
  lemma WriteOtherPage(f: File, v: nat, lo: nat, data: seq<Byte>, w: nat)
    requires data != [] && lo + |data| <= BLOCK_SIZE && v != w
    ensures Page(Write(f, Update(v * BLOCK_SIZE + lo, data)), w) == Page(f, w)
  {
    var u := Update(v * BLOCK_SIZE + lo, data);
    var got, want := Page(Write(f, u), w), Page(f, w);
    forall i | 0 <= i < BLOCK_SIZE
      ensures got[i] == want[i]
    {
      WriteAt(f, u, w * BLOCK_SIZE + i);
    }
  }

  /** Reading inside one block is slicing that block's window. */
  lemma ReadPage(f: File, v: nat, lo: nat, n: nat)
    requires lo + n <= BLOCK_SIZE && v * BLOCK_SIZE + lo + n <= |f| && n > 0
    ensures Read(f, v * BLOCK_SIZE + lo, n) == Page(f, v)[lo..lo + n]
  {
    var got, want := Read(f, v * BLOCK_SIZE + lo, n), Page(f, v)[lo..lo + n];
    forall i | 0 <= i < n
      ensures got[i] == want[i]
    {
      assert Page(f, v)[lo + i] == At(f, v * BLOCK_SIZE + (lo + i));
    }
  }
}
