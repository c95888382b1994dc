/**
 Bytes, the little-endian scalar codec (`ReadScalar`, `WriteScalar`) and the padding
 computation that every writer in the library uses.
 */
module Bytes {
  import opened Bits

  type byte = b: int | 0 <= b < 256

  type bytes = seq<byte>

  function Zeros(n: nat): (s: bytes)
    ensures |s| == n
  {
    seq(n, i => 0)
  }

  function Pow256(w: nat): (p: nat)
    ensures p >= 1
  {
    if w == 0 then 1 else 256 * Pow256(w - 1)
  }

  /** The low `w` bytes of `n`, least significant first: what storing an unsigned scalar leaves. */
  function ToLE(n: nat, w: nat): (s: bytes)
    ensures |s| == w
    decreases w
  {
    if w == 0 then [] else [n % 256] + ToLE(n / 256, w - 1)
  }

  function FromLE(s: bytes): (n: nat) {
    if s == [] then 0 else s[0] + 256 * FromLE(s[1..])
  }

  lemma {:induction false} FromLEBound(s: bytes)
    ensures FromLE(s) < Pow256(|s|)
  {
    if s != [] { FromLEBound(s[1..]); }
  }

  /** Storing then loading `w` bytes gives the value modulo 256^w. */
  lemma {:induction false} LoadStored(n: nat, w: nat)
    ensures FromLE(ToLE(n, w)) == n % Pow256(w)
    decreases w
  {
    if w > 0 {
      LoadStored(n / 256, w - 1);
      assert ToLE(n, w)[1..] == ToLE(n / 256, w - 1);
      ModSplit256(n, Pow256(w - 1));
    }
  }

  lemma ModSplit256(x: nat, m: nat)
    requires m > 0
    ensures x % (256 * m) == x % 256 + 256 * ((x / 256) % m)
  {
    var q := (x / 256) / m;
    var r := (x / 256) % m;
    assert x / 256 == m * q + r;
    assert 256 * (m * q) == (256 * m) * q;
    ModUnique(x, 256 * m, q, 256 * r + x % 256);
  }

  lemma LoadStoredFits(n: nat, w: nat)
    requires n < Pow256(w)
    ensures FromLE(ToLE(n, w)) == n
  {
    LoadStored(n, w);
    ModUnique(n, Pow256(w), 0, n);
  }

  /** Loading then storing gives the bytes back, so distinct byte strings load differently. */
  lemma {:induction false} StoreLoaded(s: bytes)
    ensures ToLE(FromLE(s), |s|) == s
  {
    if s != [] {
      StoreLoaded(s[1..]);
      var n := FromLE(s);
      assert n % 256 == s[0] && n / 256 == FromLE(s[1..]);
    }
  }

  lemma Pow256Values()
    ensures Pow256(1) == 0x100 && Pow256(2) == 0x1_0000
    ensures Pow256(4) == 0x1_0000_0000 && Pow256(8) == WORD
  {
    assert Pow256(3) == 0x100_0000;
    assert Pow256(5) == 0x100_0000_0000;
    assert Pow256(6) == 0x1_0000_0000_0000;
    assert Pow256(7) == 0x100_0000_0000_0000;
  }

  /** The two's complement reading of a `w`-byte value. */
  function Signed(u: nat, w: nat): int {
    if 2 * u >= Pow256(w) then u - Pow256(w) else u
  }

  /** The `w`-byte two's complement word of an integer. */
  function Unsigned(i: int, w: nat): nat {
    i % Pow256(w)
  }

  lemma SignedUnsigned(i: int, w: nat)
    requires 0 <= 2 * i + Pow256(w) && 2 * i < Pow256(w)
    ensures Signed(Unsigned(i, w), w) == i
  {
    if i >= 0 { ModUnique(i, Pow256(w), 0, i); }
    else { ModUnique(i, Pow256(w), -1, i + Pow256(w)); }
  }

  /** Scalar sizes and buffer alignments: powers of two up to FLATBUFFERS_MAX_ALIGNMENT. */
  predicate IsAlign(a: nat) {
    a == 1 || a == 2 || a == 4 || a == 8 || a == 16 || a == 32
  }

  /** `n % a`, by repeated subtraction. */
  function Rem(n: nat, a: nat): (r: nat)
    requires a > 0
    ensures r < a
    decreases n
  {
    if n < a then n else Rem(n - a, a)
  }

  predicate Aligned(n: nat, a: nat) {
    a > 0 && Rem(n, a) == 0
  }

  /** The least padding that brings `n` to a multiple of `a`. */
  function Padding(n: nat, a: nat): (p: nat)
    requires a > 0
    ensures p < a && Aligned(n + p, a)
  {
    RemPadding(n, a);
    if Rem(n, a) == 0 then 0 else a - Rem(n, a)
  }

  lemma {:induction false} RemPadding(n: nat, a: nat)
    requires a > 0
    ensures Rem(n, a) == 0 ==> Rem(n + 0, a) == 0
    ensures Rem(n, a) != 0 ==> Rem(n + a - Rem(n, a), a) == 0
    decreases n
  {
    if n >= a { RemPadding(n - a, a); }
  }

  lemma {:induction false} RemIsMod(n: nat, a: nat)
    requires a > 0
    ensures Rem(n, a) == n % a
    decreases n
  {
    if n >= a {
      RemIsMod(n - a, a);
      var q := (n - a) / a;
      assert n == a * (q + 1) + (n - a) % a;
      ModUnique(n, a, q + 1, (n - a) % a);
    } else {
      ModUnique(n, a, 0, n);
    }
  }

  lemma {:induction false} RemAdd(m: nat, n: nat, a: nat)
    requires a > 0 && Aligned(m, a)
    ensures Rem(m + n, a) == Rem(n, a)
    decreases m
  {
    if m >= a { RemAdd(m - a, n, a); }
  }

  /** Padding is determined by its two properties. */
  lemma PaddingUnique(n: nat, a: nat, p: nat)
    requires a > 0 && p < a && Aligned(n + p, a)
    ensures Padding(n, a) == p
  {
    var p' := Padding(n, a);
    if p > p' { RemAdd(n + p', p - p', a); }
    if p < p' { RemAdd(n + p, p' - p, a); }
  }

  lemma PaddingLeast(n: nat, a: nat, q: nat)
    requires a > 0 && Aligned(n + q, a)
    ensures Padding(n, a) <= q
  {
    if q < a { PaddingUnique(n, a, q); }
  }

  lemma AlignedDifference(m: nat, n: nat, a: nat)
    requires a > 0 && n <= m && Aligned(m, a) && Aligned(n, a)
    ensures Aligned(m - n, a)
  {
    RemAdd(n, m - n, a);
  }

  /** Alignment to a power of two implies alignment to every smaller one. */
  lemma {:induction false} AlignedWeaker(n: nat, big: nat, small: nat)
    requires IsAlign(big) && IsAlign(small) && small <= big
    requires Aligned(n, big)
    ensures Aligned(n, small)
    decreases n
  {
    if n >= big {
      AlignedWeaker(n - big, big, small);
      PowersAligned(big, small);
      RemAdd(big, n - big, small);
    }
  }

  lemma PowersAligned(big: nat, small: nat)
    requires IsAlign(big) && IsAlign(small) && small <= big
    ensures Aligned(big, small)
  {
    RemIsMod(big, small);
  }

  /** `n & (align - 1)`, the alignment test of the verifier. */
  lemma AlignTest(n: nat, a: nat)
    requires IsAlign(a)
    ensures And(n, a - 1) == Rem(n, a)
  {
    Pow2Values();
    RemIsMod(n, a);
    if
    case a == 1 => AndMask(n, 0);
    case a == 2 => AndMask(n, 1);
    case a == 4 => AndMask(n, 2);
    case a == 8 => AndMask(n, 3);
    case a == 16 => AndMask(n, 4);
    case a == 32 => AndMask(n, 5);
  }

  /** `((~buf_size) + 1) & (scalar_size - 1)` on 64-bit words. */
  function PaddingBytes(bufSize: nat, scalarSize: nat): (p: nat)
    requires IsAlign(scalarSize) && bufSize < WORD
    ensures p == Padding(bufSize, scalarSize)
  {
    NegationPads(bufSize, scalarSize);
    And((Not(bufSize) + 1) % WORD, scalarSize - 1)
  }

  lemma NegationPads(n: nat, a: nat)
    requires IsAlign(a) && n < WORD
    ensures And((Not(n) + 1) % WORD, a - 1) == Padding(n, a)
  {
    var x := (Not(n) + 1) % WORD;
    AlignTest(x, a);
    WordAligned(a);
    RemIsMod(WORD, a);
    if n != 0 {
      assert x == WORD - n;
      RemComplement(n, x, a);
    }
  }

  lemma WordAligned(a: nat)
    requires IsAlign(a)
    ensures WORD % a == 0
  {
  }

  /** Two numbers that add up to a multiple of `a` pad each other. */
  lemma RemComplement(n: nat, x: nat, a: nat)
    requires a > 0 && Aligned(n + x, a)
    ensures Rem(x, a) == Padding(n, a)
  {
    RemReduce(n, x, a);
    PaddingUnique(n, a, Rem(x, a));
  }

  lemma {:induction false} RemReduce(n: nat, x: nat, a: nat)
    requires a > 0
    ensures Rem(n + x, a) == Rem(n + Rem(x, a), a)
    decreases x
  {
    if x >= a { RemReduce(n, x - a, a); }
  }
}
