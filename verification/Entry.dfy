/** The 64-bit transaction entry and its two encodings. */
module Entry {
  import opened Layout

  datatype Option<T> = None | Some(value: T)

  datatype TxEntry =
    | Inline(numBlocks: nat, beginVidx: nat, beginLidx: nat)
    | Indirect(block: nat, offset: nat)

  const TWO_6: nat := 0x40
  const TWO_7: nat := 0x80
  const TWO_12: nat := 0x1000
  const TWO_20: nat := 0x10_0000
  const TWO_28: nat := 0x1000_0000
  const TWO_29: nat := 0x2000_0000
  const TWO_32: nat := 0x1_0000_0000
  const TWO_35: nat := 0x8_0000_0000

  /** Stores the fields in 64 bits; a field that is too wide is cut to its width. */
  function Encode(e: TxEntry): (raw: nat)
    ensures raw < TWO_64
  {
    match e
    case Inline(n, v, l) => 1 + 2 * (n % TWO_6) + TWO_7 * (v % TWO_28) + TWO_35 * (l % TWO_29)
    case Indirect(b, off) => TWO_20 * (off % TWO_12) + TWO_32 * (b % TWO_32)
  }

  /** Reads a slot; the all-zero word is the empty slot. */
  function Decode(raw: nat): Option<TxEntry>
  {
    if raw == 0 then None
    else if raw % 2 == 1 then Some(Inline(raw / 2 % TWO_6, raw / TWO_7 % TWO_28, raw / TWO_35 % TWO_29))
    else Some(Indirect(raw / TWO_32 % TWO_32, raw / TWO_20 % TWO_12))
  }

  /** `can_inline`, and for an indirect entry a 32-bit block and a 12-bit offset
      that are not both zero. */
  predicate Fits(e: TxEntry)
  {
    match e
    case Inline(n, v, l) => n < TWO_6 && v < TWO_28 && l < TWO_29
    case Indirect(b, off) => b < TWO_32 && off < TWO_12 && (b > 0 || off > 0)
  }

  lemma {:induction false} MulMono(d: nat, a: nat, b: nat)
    requires a < b
    ensures d * a + d <= d * b
  {
    if a + 1 < b { MulMono(d, a, b - 1); }
    assert d * b == d * (b - 1) + d;
  }

  lemma Split(d: nat, q: nat, r: nat)
    requires r < d
    ensures (d * q + r) / d == q && (d * q + r) % d == r
  {
    var x := d * q + r;
    var k := x / d;
    assert x == d * k + x % d;
    if q < k { MulMono(d, q, k); }
    if k < q { MulMono(d, k, q); }
  }

  lemma DecodeInline(n: nat, v: nat, l: nat)
    requires n < TWO_6 && v < TWO_28 && l < TWO_29
    ensures Decode(1 + 2 * n + TWO_7 * v + TWO_35 * l) == Some(Inline(n, v, l))
  {
    var raw := 1 + 2 * n + TWO_7 * v + TWO_35 * l;
    assert raw == 2 * (TWO_6 * (TWO_28 * l + v) + n) + 1;
    Split(2, TWO_6 * (TWO_28 * l + v) + n, 1);
    Split(TWO_6, TWO_28 * l + v, n);
    assert raw == TWO_7 * (TWO_28 * l + v) + (2 * n + 1);
    Split(TWO_7, TWO_28 * l + v, 2 * n + 1);
    Split(TWO_28, l, v);
    assert raw == TWO_35 * l + (TWO_7 * v + 2 * n + 1);
    Split(TWO_35, l, TWO_7 * v + 2 * n + 1);
  }

  lemma DecodeIndirect(b: nat, off: nat)
    requires b < TWO_32 && off < TWO_12 && (b > 0 || off > 0)
    ensures Decode(TWO_20 * off + TWO_32 * b) == Some(Indirect(b, off))
  {
    var raw := TWO_20 * off + TWO_32 * b;
    Split(TWO_32, b, TWO_20 * off);
    assert raw == TWO_20 * (TWO_12 * b + off) + 0;
    Split(TWO_20, TWO_12 * b + off, 0);
    Split(TWO_12, b, off);
    assert raw == 2 * (TWO_20 / 2 * off + TWO_32 / 2 * b) + 0;
    Split(2, TWO_20 / 2 * off + TWO_32 / 2 * b, 0);
  }

  lemma CutIsLossless(x: nat, width: nat)
    requires width > 0
    ensures x % width == x <==> x < width
  {
  }

  lemma InlineRoundTrip(n: nat, v: nat, l: nat)
    ensures Decode(Encode(Inline(n, v, l))) == Some(Inline(n % TWO_6, v % TWO_28, l % TWO_29))
  {
    DecodeInline(n % TWO_6, v % TWO_28, l % TWO_29);
  }

  lemma IndirectRoundTrip(b: nat, off: nat)
    ensures Decode(Encode(Indirect(b, off)))
         == if b % TWO_32 == 0 && off % TWO_12 == 0 then None else Some(Indirect(b % TWO_32, off % TWO_12))
  {
    if b % TWO_32 > 0 || off % TWO_12 > 0 {
      DecodeIndirect(b % TWO_32, off % TWO_12);
    }
  }

  /** An entry survives its slot, and is told from an empty slot, exactly when
      it fits the fields. */
  lemma RoundTrip(e: TxEntry)
    ensures Decode(Encode(e)) == Some(e) <==> Fits(e)
  {
    match e
    case Inline(n, v, l) =>
      InlineRoundTrip(n, v, l);
      CutIsLossless(n, TWO_6);
      CutIsLossless(v, TWO_28);
      CutIsLossless(l, TWO_29);
    case Indirect(b, off) =>
      IndirectRoundTrip(b, off);
      CutIsLossless(b, TWO_32);
      CutIsLossless(off, TWO_12);
  }
}
