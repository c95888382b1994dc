/**
 Bit widths in FlexBuffers: how wide a scalar or a relative offset has to be stored
 (WidthU, WidthI, Builder::Value::ElemWidth), and why a vector that takes the widest of
 its elements' widths has room for all of them.
 */
module FlexWidths {
  import opened Bits
  import opened Bytes

  /** A width is coded 0, 1, 2 or 3 for 1, 2, 4 or 8 bytes. */
  type Width = w: nat | w <= 3

  function ByteWidth(bw: Width): (n: nat)
    ensures n == 1 || n == 2 || n == 4 || n == 8
  {
    if bw == 0 then 1 else if bw == 1 then 2 else if bw == 2 then 4 else 8
  }

  /** The numbers that fit in this many bytes. */
  function Capacity(bw: Width): nat {
    if bw == 0 then 0x100 else if bw == 1 then 0x1_0000 else if bw == 2 then 0x1_0000_0000 else WORD
  }

  lemma CapacityIsPow256(bw: Width)
    ensures Capacity(bw) == Pow256(ByteWidth(bw))
  {
    Pow256Values();
  }

  /** `!((u) & ~((1ULL << width) - 1ULL))` for 8 * ByteWidth(bw) bits. */
  predicate HighBitsClear(u: nat, bits: nat)
    requires u < WORD && bits < 64
  {
    Pow2Below64(bits);
    And(u, Not(Pow2(bits) - 1)) == 0
  }

  lemma Pow2Below64(bits: nat)
    requires bits < 64
    ensures Pow2(bits) < WORD
  {
    Pow2Values();
    Pow2Mono(bits + 1, 64);
  }

  lemma HighBitsClearMeans(u: nat, bits: nat)
    requires u < WORD && bits < 64
    ensures HighBitsClear(u, bits) <==> u < Pow2(bits)
  {
    Pow2Values();
    Pow2Below64(bits);
    AndHighMask(u, bits, 64, WORD - Pow2(bits));
    if u < Pow2(bits) { ModUnique(u, Pow2(bits), 0, u); }
  }

  /** The least width whose capacity exceeds `u`. */
  function WidthU(u: nat): (bw: Width)
    requires u < WORD
    ensures u < Capacity(bw)
    ensures bw > 0 ==> u >= Capacity(bw - 1)
  {
    Pow2Values();
    HighBitsClearMeans(u, 8);
    HighBitsClearMeans(u, 16);
    HighBitsClearMeans(u, 32);
    if HighBitsClear(u, 8) then 0 else if HighBitsClear(u, 16) then 1 else if HighBitsClear(u, 32) then 2 else 3
  }

  /** The width of a size_t. */
  function SizeWidth(n: nat): Width { WidthU(n % WORD) }

  predicate IsInt64(i: int) {
    -0x8000_0000_0000_0000 <= i < 0x8000_0000_0000_0000
  }

  /** `u = (uint64)i << 1; WidthU(i >= 0 ? u : ~u)`: the least width that keeps `i` under sign extension. */
  function WidthI(i: int): (bw: Width)
    requires IsInt64(i)
    ensures 0 <= 2 * i + Capacity(bw) && 2 * i < Capacity(bw)
    ensures bw > 0 ==> 2 * i + Capacity(bw - 1) < 0 || 2 * i >= Capacity(bw - 1)
  {
    var u := (2 * (i % WORD)) % WORD;
    ShiftedSign(i);
    WidthU(if i >= 0 then u else Not(u))
  }

  lemma ShiftedSign(i: int)
    requires IsInt64(i)
    ensures i >= 0 ==> (2 * (i % WORD)) % WORD == 2 * i
    ensures i < 0 ==> Not((2 * (i % WORD)) % WORD) == -2 * i - 1
  {
  }

  // ---------- Relative offsets ----------

  /** Sizes and indices for which no 64-bit position overflows. */
  const SIZE_LIMIT: nat := 0x100_0000_0000_0000

  /** Where element `index` of a vector appended to a buffer of this size is written, at width `bw`. */
  function SlotPosition(size: nat, index: nat, bw: Width): nat {
    size + Padding(size, ByteWidth(bw)) + index * ByteWidth(bw)
  }

  /** The relative offset, at width `bw`, from that element back to position `target`. */
  function Relative(size: nat, index: nat, target: int, bw: Width): int {
    SlotPosition(size, index, bw) - target
  }

  /** Offsets are small enough at every width. */
  lemma RelativeBound(size: nat, index: nat, target: nat, bw: Width)
    requires target <= size < SIZE_LIMIT && index < SIZE_LIMIT
    ensures 0 <= Relative(size, index, target, bw) < WORD
  {
  }

  /** Tries each width in turn for the one whose offset, in 64-bit arithmetic, needs exactly that width. */
  function OffsetWidth(size: nat, index: nat, target: int, bw: Width): (r: Width)
    decreases 3 - bw
  {
    if WidthU(Relative(size, index, target, bw) % WORD) == bw then bw
    else if bw == 3 then 3
    else OffsetWidth(size, index, target, bw + 1)
  }

  lemma PaddingGrows(size: nat, bw: Width)
    requires bw < 3
    ensures Padding(size, ByteWidth(bw)) <= Padding(size, ByteWidth(bw + 1))
  {
    var n, m := ByteWidth(bw), ByteWidth(bw + 1);
    AlignedWeaker(size + Padding(size, m), m, n);
    PaddingLeast(size, n, Padding(size, m));
  }

  /** A wider stride never brings an element nearer. */
  lemma RelativeGrows(size: nat, index: nat, target: nat, bw: Width)
    requires target <= size && bw < 3
    ensures Relative(size, index, target, bw) <= Relative(size, index, target, bw + 1)
  {
    PaddingGrows(size, bw);
    MulGrows(index, ByteWidth(bw), ByteWidth(bw + 1));
  }

  lemma MulGrows(k: nat, m: nat, n: nat)
    requires m <= n
    ensures k * m <= k * n
  {
  }

  /**
   The width found always fits its offset, and no smaller width does: the final assert of ElemWidth is
   never reached.
   */
  lemma {:induction false} OffsetWidthLeast(size: nat, index: nat, target: nat, bw: Width)
    requires target <= size < SIZE_LIMIT && index < SIZE_LIMIT
    requires bw == 0 || Relative(size, index, target, bw - 1) >= Capacity(bw - 1)
    ensures var r := OffsetWidth(size, index, target, bw);
            && bw <= r
            && 0 <= Relative(size, index, target, r) < WORD && WidthU(Relative(size, index, target, r)) == r
            && (forall s: Width :: bw <= s < r ==> Relative(size, index, target, s) >= Capacity(s))
    decreases 3 - bw
  {
    hide Relative, WidthU;
    RelativeBound(size, index, target, bw);
    var off := Relative(size, index, target, bw);
    if bw > 0 { RelativeGrows(size, index, target, bw - 1); }
    if WidthU(off) != bw {
      assert off >= Capacity(bw);
      if bw < 3 { OffsetWidthLeast(size, index, target, bw + 1); }
    }
  }

  /**
   Widening is safe: an offset that fits at its own width, counted to at least as far an
   element, still fits at every greater width, although stride and alignment grow.
   */
  lemma WiderStillFits(size: nat, index: nat, estimate: nat, target: nat, bw: Width, wider: Width)
    requires target <= size && index <= estimate && bw <= wider
    requires Relative(size, estimate, target, bw) < Capacity(bw)
    ensures Relative(size, index, target, wider) < Capacity(wider)
  {
    if bw == wider {
      MulGrowsLeft(index, estimate, ByteWidth(bw));
    } else {
      WiderCase(size, index, estimate, target, bw, wider);
    }
  }

  lemma MulGrowsLeft(k: nat, l: nat, m: nat)
    requires k <= l
    ensures k * m <= l * m
  {
  }

  lemma WiderCase(size: nat, index: nat, estimate: nat, target: nat, bw: Width, wider: Width)
    requires target <= size && index <= estimate && bw < wider
    requires Relative(size, estimate, target, bw) < Capacity(bw)
    ensures Relative(size, index, target, wider) < Capacity(wider)
  {
    hide Padding;
    assert estimate * ByteWidth(bw) < Capacity(bw);
    assert Padding(size, ByteWidth(wider)) < 8;
    if bw == 0 { assert index < 0x100; }
    else if bw == 1 { assert index < 0x8000; }
    else { assert index < 0x4000_0000; }
  }
}
