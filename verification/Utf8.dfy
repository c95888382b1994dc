/**
 UTF-8 (util.h: ToUTF8, FromUTF8), against section 3 of RFC 3629, with bytes built and taken
 apart by the shifts and masks of the source.
 */
module Utf8 {
  import opened Bits
  import opened Bytes
  import opened Wrappers

  // ---------- The standard ----------

  /** Unicode scalar values: code points without the surrogates. */
  predicate IsScalar(u: nat) {
    u <= 0x10FFFF && !(0xD800 <= u <= 0xDFFF)
  }

  /** Section 3 of RFC 3629: the bytes of a code point. */
  function Encoded(u: nat): (s: bytes)
    requires u <= 0x10FFFF
    ensures 1 <= |s| <= 4
  {
    if u < 0x80 then [u]
    else if u < 0x800 then [0xC0 + u / 0x40, 0x80 + u % 0x40]
    else if u < 0x1_0000 then [0xE0 + u / 0x1000, 0x80 + u / 0x40 % 0x40, 0x80 + u % 0x40]
    else [0xF0 + u / 0x4_0000, 0x80 + u / 0x1000 % 0x40, 0x80 + u / 0x40 % 0x40, 0x80 + u % 0x40]
  }

  predicate AllScalars(us: seq<nat>) {
    forall i :: 0 <= i < |us| ==> IsScalar(us[i])
  }

  function EncodeAll(us: seq<nat>): bytes
    requires AllScalars(us)
  {
    if us == [] then [] else Encoded(us[0]) + EncodeAll(us[1..])
  }

  /** Section 4 of RFC 3629: the well-formed byte sequence at `i`, by its length; 0 when there is none. */
  function SyntaxLength(t: bytes, i: nat): nat {
    if i >= |t| then 0
    else if t[i] <= 0x7F then 1
    else if 0xC2 <= t[i] <= 0xDF && Tail(t, i + 1) then 2
    else if i + 1 < |t| && Tail(t, i + 2)
            && ( (t[i] == 0xE0 && 0xA0 <= t[i + 1] <= 0xBF) || (0xE1 <= t[i] <= 0xEC && Tail(t, i + 1))
              || (t[i] == 0xED && 0x80 <= t[i + 1] <= 0x9F) || (0xEE <= t[i] <= 0xEF && Tail(t, i + 1))) then 3
    else if i + 1 < |t| && Tail(t, i + 2) && Tail(t, i + 3)
            && ( (t[i] == 0xF0 && 0x90 <= t[i + 1] <= 0xBF) || (0xF1 <= t[i] <= 0xF3 && Tail(t, i + 1))
              || (t[i] == 0xF4 && 0x80 <= t[i + 1] <= 0x8F)) then 4
    else 0
  }

  predicate Tail(t: bytes, i: nat) {
    i < |t| && 0x80 <= t[i] <= 0xBF
  }

  // ---------- What FromUTF8 accepts ----------

  function LeadingOnes(b: byte): (n: nat)
    ensures n <= 6
  {
    if b < 0x80 then 0 else if b < 0xC0 then 1 else if b < 0xE0 then 2 else if b < 0xF0 then 3
    else if b < 0xF8 then 4 else if b < 0xFC then 5 else 6
  }

  /** The six bits of a continuation byte. */
  function Low(t: bytes, i: nat): (n: nat)
    requires i < |t|
    ensures n < 0x40
  {
    t[i] % 0x40
  }

  /** The bits of `k` continuation bytes from `i` on, behind those of `u`. */
  function Collect(t: bytes, i: nat, k: nat, u: nat): Option<nat>
    decreases k
  {
    if k == 0 then Some(u)
    else if !Tail(t, i) then None
    else Collect(t, i + 1, k - 1, 0x40 * u + Low(t, i))
  }

  /** Neither a surrogate nor longer than need be. */
  predicate Canonical(u: nat, len: nat) {
    IsScalar(u) && (len == 2 ==> 0x80 <= u <= 0x7FF) && (len == 3 ==> 0x800 <= u <= 0xFFFF)
        && (len == 4 ==> 0x1_0000 <= u)
  }

  /** The bits that the first byte of a sequence of this length contributes. */
  function LeadBits(b: byte, len: nat): nat {
    if len == 2 then b % 0x20 else if len == 3 then b % 0x10 else b % 8
  }

  /** The code point at `i` and the number of its bytes. */
  function DecodeAt(t: bytes, i: nat): Option<(nat, nat)>
    requires i < |t|
  {
    var len := LeadingOnes(t[i]);
    if len == 0 then Some((t[i] as nat, 1))
    else if len < 2 || len > 4 then None
    else
      var u := Collect(t, i + 1, len - 1, LeadBits(t[i], len));
      if u.Some? && Canonical(u.value, len) then Some((u.value, len)) else None
  }

  /** FromUTF8 accepts exactly the byte sequences that section 4 of RFC 3629 lists. */
  lemma AcceptsTheSyntax(t: bytes, i: nat)
    requires i < |t|
    ensures DecodeAt(t, i).Some? <==> SyntaxLength(t, i) > 0
    ensures DecodeAt(t, i).Some? ==> DecodeAt(t, i).value.1 == SyntaxLength(t, i)
  {
    var len := LeadingOnes(t[i]);
    if len == 2 { Collect2(t, i, LeadBits(t[i], 2)); }
    if len == 3 { Collect3(t, i, LeadBits(t[i], 3)); }
    if len == 4 { Collect4(t, i, LeadBits(t[i], 4)); }
  }

  lemma Collect2(t: bytes, i: nat, u: nat)
    ensures Collect(t, i + 1, 1, u) == if Tail(t, i + 1) then Some(0x40 * u + Low(t, i + 1)) else None
  {
    hide Low;
    if Tail(t, i + 1) { assert Collect(t, i + 2, 0, 0x40 * u + Low(t, i + 1)) == Some(0x40 * u + Low(t, i + 1)); }
  }

  lemma Collect3(t: bytes, i: nat, u: nat)
    ensures Collect(t, i + 1, 2, u) ==
            if Tail(t, i + 1) && Tail(t, i + 2) then Some(0x1000 * u + 0x40 * Low(t, i + 1) + Low(t, i + 2)) else None
  {
    hide Low;
    if Tail(t, i + 1) { Collect2(t, i + 1, 0x40 * u + Low(t, i + 1)); }
  }

  lemma Collect4(t: bytes, i: nat, u: nat)
    ensures Collect(t, i + 1, 3, u) ==
            if Tail(t, i + 1) && Tail(t, i + 2) && Tail(t, i + 3)
            then Some(0x4_0000 * u + 0x1000 * Low(t, i + 1) + 0x40 * Low(t, i + 2) + Low(t, i + 3))
            else None
  {
    hide Low;
    if Tail(t, i + 1) { Collect3(t, i + 1, 0x40 * u + Low(t, i + 1)); }
  }

  /** The four groups of bits that make up a code point. */
  lemma Regroup(a: nat, b: nat, c: nat, d: nat)
    requires b < 0x40 && c < 0x40 && d < 0x40
    ensures var u := 0x4_0000 * a + 0x1000 * b + 0x40 * c + d;
            && u % 0x40 == d && u / 0x40 % 0x40 == c && u / 0x1000 % 0x40 == b
            && u / 0x40 == 0x1000 * a + 0x40 * b + c && u / 0x1000 == 0x40 * a + b && u / 0x4_0000 == a
  {
  }

  lemma TailByte(t: bytes, i: nat)
    requires Tail(t, i)
    ensures t[i] == 0x80 + Low(t, i)
  {
  }

  /** Whatever is accepted is what ToUTF8 emits for the result: no other spelling gets through. */
  lemma AcceptedIsEncoded(t: bytes, i: nat)
    requires i < |t| && DecodeAt(t, i).Some?
    ensures var (u, n) := DecodeAt(t, i).value;
            IsScalar(u) && i + n <= |t| && t[i..i + n] == Encoded(u)
  {
    var len := LeadingOnes(t[i]);
    if len == 2 { AcceptedTwo(t, i); }
    if len == 3 { AcceptedThree(t, i); }
    if len == 4 { AcceptedFour(t, i); }
  }

  lemma AcceptedTwo(t: bytes, i: nat)
    requires i < |t| && DecodeAt(t, i).Some? && LeadingOnes(t[i]) == 2
    ensures i + 2 <= |t| && t[i..i + 2] == Encoded(DecodeAt(t, i).value.0)
  {
    hide Low, Collect;
    Collect2(t, i, LeadBits(t[i], 2));
    TailByte(t, i + 1);
    Regroup(0, 0, LeadBits(t[i], 2), Low(t, i + 1));
  }

  lemma AcceptedThree(t: bytes, i: nat)
    requires i < |t| && DecodeAt(t, i).Some? && LeadingOnes(t[i]) == 3
    ensures i + 3 <= |t| && t[i..i + 3] == Encoded(DecodeAt(t, i).value.0)
  {
    hide Low, Collect;
    Collect3(t, i, LeadBits(t[i], 3));
    TailByte(t, i + 1);
    TailByte(t, i + 2);
    Regroup(0, LeadBits(t[i], 3), Low(t, i + 1), Low(t, i + 2));
  }

  lemma AcceptedFour(t: bytes, i: nat)
    requires i < |t| && DecodeAt(t, i).Some? && LeadingOnes(t[i]) == 4
    ensures i + 4 <= |t| && t[i..i + 4] == Encoded(DecodeAt(t, i).value.0)
  {
    hide Low, Collect;
    Collect4(t, i, LeadBits(t[i], 4));
    TailByte(t, i + 1);
    TailByte(t, i + 2);
    TailByte(t, i + 3);
    Regroup(LeadBits(t[i], 4), Low(t, i + 1), Low(t, i + 2), Low(t, i + 3));
  }

  /** And what ToUTF8 emits is accepted, whatever follows. */
  lemma EncodedIsAccepted(before: bytes, u: nat, after: bytes)
    requires IsScalar(u)
    ensures DecodeAt(before + Encoded(u) + after, |before|) == Some((u, |Encoded(u)|))
  {
    hide Encoded;
    EncodedInPlace(before, Encoded(u), after);
    EncodedDecodes(before + Encoded(u) + after, |before|, u);
  }

  lemma EncodedInPlace(before: bytes, e: bytes, after: bytes)
    ensures (before + e + after)[|before|..|before| + |e|] == e
  {
  }

  lemma EncodedDecodes(t: bytes, i: nat, u: nat)
    requires IsScalar(u) && i + |Encoded(u)| <= |t| && t[i..i + |Encoded(u)|] == Encoded(u)
    ensures DecodeAt(t, i) == Some((u, |Encoded(u)|))
  {
    hide DecodeAt;
    ByteAt(t, i, Encoded(u), 0);
    if u < 0x80 {
      DecodesOne(t, i);
    } else if u < 0x800 {
      ByteAt(t, i, Encoded(u), 1);
      DecodesTwo(t, i, u / 0x40, u % 0x40);
    } else if u < 0x1_0000 {
      EncodedThree(t, i, u);
    } else {
      EncodedFour(t, i, u);
    }
  }

  lemma EncodedThree(t: bytes, i: nat, u: nat)
    requires IsScalar(u) && 0x800 <= u < 0x1_0000 && i + 3 <= |t| && t[i..i + 3] == Encoded(u)
    ensures DecodeAt(t, i) == Some((u, 3))
  {
    hide DecodeAt;
    ByteAt(t, i, Encoded(u), 0);
    ByteAt(t, i, Encoded(u), 1);
    ByteAt(t, i, Encoded(u), 2);
    DecodesThree(t, i, u / 0x1000, u / 0x40 % 0x40, u % 0x40);
  }

  lemma EncodedFour(t: bytes, i: nat, u: nat)
    requires IsScalar(u) && 0x1_0000 <= u && i + 4 <= |t| && t[i..i + 4] == Encoded(u)
    ensures DecodeAt(t, i) == Some((u, 4))
  {
    hide DecodeAt;
    ByteAt(t, i, Encoded(u), 0);
    ByteAt(t, i, Encoded(u), 1);
    ByteAt(t, i, Encoded(u), 2);
    ByteAt(t, i, Encoded(u), 3);
    Ungroup(u);
    hide Encoded;
    DecodesFour(t, i, u / 0x4_0000, u / 0x1000 % 0x40, u / 0x40 % 0x40, u % 0x40);
  }

  lemma Ungroup(u: nat)
    requires 0x1_0000 <= u <= 0x10FFFF
    ensures u == 0x4_0000 * (u / 0x4_0000) + 0x1000 * (u / 0x1000 % 0x40) + 0x40 * (u / 0x40 % 0x40) + u % 0x40
    ensures u / 0x4_0000 < 8
  {
    var v := u / 0x40;
    var w := v / 0x40;
    assert u / 0x1000 == w;
    assert u / 0x4_0000 == w / 0x40;
  }

  lemma ByteAt(t: bytes, i: nat, e: bytes, k: nat)
    requires i + |e| <= |t| && t[i..i + |e|] == e && k < |e|
    ensures t[i + k] == e[k]
  {
  }

  lemma DecodesOne(t: bytes, i: nat)
    requires i < |t| && t[i] < 0x80
    ensures DecodeAt(t, i) == Some((t[i] as nat, 1))
  {
  }

  lemma DecodesTwo(t: bytes, i: nat, a: nat, b: nat)
    requires i + 2 <= |t| && a < 0x20 && b < 0x40 && t[i] == 0xC0 + a && t[i + 1] == 0x80 + b && 0x80 <= 0x40 * a + b
    ensures DecodeAt(t, i) == Some((0x40 * a + b, 2))
  {
    hide Collect;
    Collect2(t, i, a);
  }

  lemma DecodesThree(t: bytes, i: nat, a: nat, b: nat, c: nat)
    requires i + 3 <= |t| && a < 0x10 && b < 0x40 && c < 0x40
    requires t[i] == 0xE0 + a && t[i + 1] == 0x80 + b && t[i + 2] == 0x80 + c
    requires 0x800 <= 0x1000 * a + 0x40 * b + c && IsScalar(0x1000 * a + 0x40 * b + c)
    ensures DecodeAt(t, i) == Some((0x1000 * a + 0x40 * b + c, 3))
  {
    hide Collect;
    Collect3(t, i, a);
  }

  lemma DecodesFour(t: bytes, i: nat, a: nat, b: nat, c: nat, d: nat)
    requires i + 4 <= |t| && a < 8 && b < 0x40 && c < 0x40 && d < 0x40
    requires t[i] == 0xF0 + a && t[i + 1] == 0x80 + b && t[i + 2] == 0x80 + c && t[i + 3] == 0x80 + d
    requires 0x1_0000 <= 0x4_0000 * a + 0x1000 * b + 0x40 * c + d <= 0x10FFFF
    ensures DecodeAt(t, i) == Some((0x4_0000 * a + 0x1000 * b + 0x40 * c + d, 4))
  {
    hide Collect;
    Collect4(t, i, a);
  }

  // ---------- Sequences of code points ----------

  /** Repeated FromUTF8 up to the end; None at the first place it rejects. */
  function DecodeAll(t: bytes, i: nat): Option<seq<nat>>
    requires i <= |t|
    decreases |t| - i
  {
    if i == |t| then Some([])
    else
      var d :- DecodeAt(t, i);
      if d.1 == 0 || i + d.1 > |t| then None
      else
        var rest :- DecodeAll(t, i + d.1);
        Some([d.0] + rest)
  }

  /** Decoding undoes encoding, and uses up exactly the bytes that were emitted. */
  lemma {:induction false} DecodesEncoded(before: bytes, us: seq<nat>)
    requires AllScalars(us)
    ensures DecodeAll(before + EncodeAll(us), |before|) == Some(us)
    decreases |us|
  {
    hide Encoded, DecodeAt;
    var t := before + EncodeAll(us);
    if us != [] {
      var e := Encoded(us[0]);
      assert t == before + e + EncodeAll(us[1..]);
      EncodedIsAccepted(before, us[0], EncodeAll(us[1..]));
      DecodesEncoded(before + e, us[1..]);
      assert us == [us[0]] + us[1..];
    }
  }

  /** Encoding undoes decoding: only the output of ToUTF8 decodes. */
  lemma {:induction false} EncodesDecoded(t: bytes, i: nat)
    requires i <= |t| && DecodeAll(t, i).Some?
    ensures AllScalars(DecodeAll(t, i).value) && EncodeAll(DecodeAll(t, i).value) == t[i..]
    decreases |t| - i
  {
    hide Encoded, DecodeAt;
    if i < |t| {
      var (u, n) := DecodeAt(t, i).value;
      AcceptedIsEncoded(t, i);
      EncodesDecoded(t, i + n);
      assert t[i..] == t[i..i + n] + t[i + n..];
    }
  }

  // ---------- ToUTF8 ----------

  /** Code points below this fit the form with i continuation bytes. */
  function FormLimit(i: nat): nat {
    if i == 0 then 0x80 else if i == 1 then 0x800 else if i == 2 then 0x1_0000
    else if i == 3 then 0x20_0000 else if i == 4 then 0x400_0000 else 0x8000_0000
  }

  /** The marker bits of a first byte with i continuation bytes. */
  function Marker(i: nat): nat {
    if i == 0 then 0 else if i == 1 then 0xC0 else if i == 2 then 0xE0
    else if i == 3 then 0xF0 else if i == 4 then 0xF8 else 0xFC
  }

  /** The last k continuation bytes. */
  function Continuation(u: nat, k: nat): (s: bytes)
    ensures |s| == k
  {
    if k == 0 then [] else [0x80 + u / Pow2(6 * (k - 1)) % 0x40] + Continuation(u, k - 1)
  }

  /** The form with i continuation bytes. */
  function Form(u: nat, i: nat): bytes
    requires i <= 5 && u < FormLimit(i)
  {
    hide Marker, FormLimit, Pow2;
    LeadFits(u, i);
    [Marker(i) + u / Pow2(6 * i)] + Continuation(u, i)
  }

  lemma LeadFits(u: nat, i: nat)
    requires i <= 5 && u < FormLimit(i)
    ensures u / Pow2(6 * i) < Pow2(LeadSize(i)) && Marker(i) + u / Pow2(6 * i) < 0x100
  {
    Pow2Values();
    PowersOf64();
  }

  /** How many bits of the code point the first byte takes. */
  function LeadSize(i: nat): nat
    requires i <= 5
  {
    6 - i + if i == 0 then 1 else 0
  }

  lemma PowersOf64()
    ensures Pow2(0) == 1 && Pow2(6) == 0x40 && Pow2(12) == 0x1000 && Pow2(18) == 0x4_0000
    ensures Pow2(24) == 0x100_0000 && Pow2(30) == 0x4000_0000
  {
    Pow2Values();
    assert Pow2(24) == 8 * Pow2(21);
    assert Pow2(30) == 16 * Pow2(26);
  }

  /** For Unicode the shortest form is the standard's encoding. */
  lemma FormIsEncoded(u: nat, i: nat)
    requires u <= 0x10FFFF && i <= 3 && u < FormLimit(i) && (i > 0 ==> u >= FormLimit(i - 1))
    ensures Form(u, i) == Encoded(u)
  {
    PowersOf64();
    assert Continuation(u, 0) == [];
    assert Continuation(u, 1) == [0x80 + u / Pow2(0) % 0x40];
    assert Continuation(u, 2) == [0x80 + u / Pow2(6) % 0x40] + Continuation(u, 1);
    assert Continuation(u, 3) == [0x80 + u / Pow2(12) % 0x40] + Continuation(u, 2);
  }

  /** The bits of u in front of its last k groups of six. */
  function HighBits(u: nat, k: nat): nat {
    Quotient(u, Pow2(6 * k))
  }

  function Quotient(u: nat, m: nat): (q: nat)
    requires m > 0
  {
    u / m
  }

  /** Continuation bytes give back the bits behind the first byte's. */
  lemma {:induction false} ContinuationCollects(before: bytes, u: nat, k: nat)
    ensures Collect(before + Continuation(u, k), |before|, k, HighBits(u, k)) == Some(u)
    decreases k
  {
    hide HighBits, Low, Tail;
    if k == 0 {
      AllBits(u);
    } else {
      var c := Continuation(u, k);
      var t := before + c;
      SixBits(u, k);
      NextTail(u, k);
      assert t[|before|] == c[0];
      assert before + c == before + [c[0]] + Continuation(u, k - 1);
      LowOfTail(t, |before|, HighBits(u, k - 1) % 0x40);
      ContinuationCollects(before + [c[0]], u, k - 1);
    }
  }

  lemma AllBits(u: nat)
    ensures HighBits(u, 0) == u
  {
    assert Pow2(0) == 1;
  }

  lemma NextTail(u: nat, k: nat)
    requires k > 0
    ensures Continuation(u, k) == [0x80 + HighBits(u, k - 1) % 0x40] + Continuation(u, k - 1)
  {
  }

  lemma LowOfTail(t: bytes, i: nat, q: nat)
    requires i < |t| && q < 0x40 && t[i] == 0x80 + q
    ensures Tail(t, i) && Low(t, i) == q
  {
  }

  lemma SixBits(u: nat, k: nat)
    requires k > 0
    ensures 0x40 * HighBits(u, k) + HighBits(u, k - 1) % 0x40 == HighBits(u, k - 1)
  {
    hide Pow2;
    SixMore(6 * (k - 1));
    DivSixBits(u, Pow2(6 * (k - 1)));
  }

  lemma DivSixBits(u: nat, m: nat)
    requires m > 0
    ensures u / (0x40 * m) == u / m / 0x40
  {
    var q := u / m;
    assert u == m * q + u % m;
    var h, l := q / 0x40, q % 0x40;
    assert q == 0x40 * h + l;
    Distribute(m, h, l);
    BelowProduct(m, l, u % m);
    ModUnique(u, 0x40 * m, h, m * l + u % m);
  }

  lemma Distribute(m: nat, h: nat, l: nat)
    ensures m * (0x40 * h + l) == (0x40 * m) * h + m * l
  {
  }

  lemma BelowProduct(m: nat, q: nat, r: nat)
    requires q < 0x40 && r < m
    ensures m * q + r < 0x40 * m
  {
    assert m * q <= m * 0x3F;
  }

  lemma SixMore(n: nat)
    ensures Pow2(n + 6) == 0x40 * Pow2(n)
  {
    assert Pow2(n + 2) == 4 * Pow2(n);
    assert Pow2(n + 4) == 4 * Pow2(n + 2);
    assert Pow2(n + 6) == 4 * Pow2(n + 4);
  }

  /** Every form, also of five and six bytes, announces its length in its first byte and holds all the bits. */
  lemma FormReads(u: nat, i: nat)
    requires i <= 5 && u < FormLimit(i)
    ensures var s := Form(u, i);
            && |s| == i + 1 && LeadingOnes(s[0]) == (if i == 0 then 0 else i + 1)
            && s[0] >= Marker(i) && Collect(s, 1, i, s[0] - Marker(i)) == Some(u)
  {
    hide Collect, Pow2, LeadingOnes, Marker, FormLimit;
    LeadFits(u, i);
    var s := Form(u, i);
    assert s == [s[0]] + Continuation(u, i);
    ContinuationCollects([s[0]], u, i);
    LeadOfForm(HighBits(u, i), i);
  }

  lemma LeadOfForm(q: nat, i: nat)
    requires i <= 5 && q < Pow2(LeadSize(i)) && Marker(i) + q < 0x100
    ensures LeadingOnes(Marker(i) + q) == if i == 0 then 0 else i + 1
  {
    Pow2Values();
  }

  lemma MarkerBits(k: nat, q: nat, i: nat)
    requires i <= 5 && k == LeadSize(i) && q < Pow2(k)
    ensures Or(Shl(0xFE, k), q) % 0x100 == Marker(i) + q
  {
    hide Or;
    Pow2Values();
    OrDisjoint(0xFE, k, q);
  }

  /** `(0xFE << (max_bits - remain_bits)) | (ucc >> remain_bits)`, as a char. */
  lemma FirstByte(u: nat, i: nat)
    requires i <= 5 && u < FormLimit(i)
    ensures Or(Shl(0xFE, LeadSize(i)), Shr(u, 6 * i)) % 0x100 == Marker(i) + u / Pow2(6 * i) < 0x100
  {
    hide Or, Shl, Shr, Pow2, Marker;
    ShrDivides(u, 6 * i);
    LeadFits(u, i);
    MarkerBits(LeadSize(i), u / Pow2(6 * i), i);
  }

  /** `((ucc >> (j * 6)) & 0x3F) | 0x80` */
  lemma TailBits(u: nat, j: nat)
    ensures Or(And(Shr(u, 6 * j), 0x3F), 0x80) == 0x80 + u / Pow2(6 * j) % 0x40
  {
    Pow2Values();
    ShrDivides(u, 6 * j);
    AndMask(u / Pow2(6 * j), 6);
    var low := u / Pow2(6 * j) % 0x40;
    OrCommutes(low, 0x80);
    OrDisjoint(1, 7, low);
  }

  /** The number of continuation bytes of the first form that fits. */
  function FormOf(u: nat): (i: nat)
    ensures i <= 5
  {
    if u < FormLimit(0) then 0 else if u < FormLimit(1) then 1 else if u < FormLimit(2) then 2
    else if u < FormLimit(3) then 3 else if u < FormLimit(4) then 4 else 5
  }

  /** Appends the UTF-8 bytes of a code point; up to six for values beyond Unicode. */
  method ToUTF8(ucc: nat, text: bytes) returns (out: bytes, n: nat)
    requires ucc < 0x8000_0000
    ensures n == FormOf(ucc) + 1 && out == text + Form(ucc, FormOf(ucc))
    ensures ucc <= 0x10FFFF ==> out == text + Encoded(ucc)
  {
    hide Or, And, Shr, Shl, Encoded, Pow2, FormLimit, Marker, Continuation;
    out := text;
    var i := 0;
    FirstForm(ucc);
    while true
      invariant i <= FormOf(ucc) && out == text
      decreases 6 - i
    {
      var maxBits := 6 + i * 5 + if i == 0 then 1 else 0;
      LimitIsShift(i);
      if ucc < Shl(1, maxBits) {
        var remainBits := i * 6;
        FirstFits(ucc, i);
        FirstByte(ucc, i);
        if ucc <= 0x10FFFF { FormIsEncoded(ucc, i); }
        out := out + [Or(Shl(0xFE, maxBits - remainBits), Shr(ucc, remainBits)) % 0x100];
        var j := i - 1;
        while j >= 0
          invariant -1 <= j < i
          invariant out + Continuation(ucc, j + 1) == text + Form(ucc, i)
        {
          TailBits(ucc, j);
          NextByte(out, ucc, j);
          out := out + [Or(And(Shr(ucc, j * 6), 0x3F), 0x80)];
          j := j - 1;
        }
        NoMore(out, ucc);
        return out, i + 1;
      }
      i := i + 1;
    }
  }

  lemma FirstForm(u: nat)
    requires u < 0x8000_0000
    ensures u < FormLimit(FormOf(u)) && forall i :: 0 <= i < FormOf(u) ==> u >= FormLimit(i)
  {
  }

  lemma FirstFits(u: nat, i: nat)
    requires u < 0x8000_0000 && i <= FormOf(u) && u < FormLimit(i)
    ensures i == FormOf(u) && (u <= 0x10FFFF ==> i <= 3) && (i > 0 ==> u >= FormLimit(i - 1))
  {
  }

  lemma NextByte(x: bytes, u: nat, j: nat)
    ensures x + Continuation(u, j + 1) == x + [0x80 + u / Pow2(6 * j) % 0x40] + Continuation(u, j)
  {
    hide Pow2;
  }

  lemma NoMore(x: bytes, u: nat)
    ensures x + Continuation(u, 0) == x
  {
  }

  lemma LimitIsShift(i: nat)
    requires i <= 5
    ensures Shl(1, 6 + i * 5 + if i == 0 then 1 else 0) == FormLimit(i)
  {
    Pow2Values();
  }

  // ---------- FromUTF8 ----------

  /** Bit k of a byte tells whether more than 7 - k ones lead. */
  lemma BitTest(b: byte, k: nat)
    requires 2 <= k <= 7 && LeadingOnes(b) >= 7 - k
    ensures And(b, Pow2(k)) != 0 <==> LeadingOnes(b) > 7 - k
  {
    hide And;
    Pow2Values();
    AndBit(b, k);
  }

  /** `(b << len) & 0x80`: the bit after the leading ones. */
  lemma NextBitClear(b: byte)
    ensures And(Shl(b, LeadingOnes(b)) % 0x100, 0x80) != 0 <==> b >= 0xFE
  {
    hide And, Pow2;
    Pow2Values();
    AndBit(Shl(b, LeadingOnes(b)) % 0x100, 7);
    match LeadingOnes(b)
    case 0 => ModUnique(b, 0x100, 0, b);
    case 1 => ModUnique(2 * b, 0x100, 1, 2 * b - 0x100);
    case 2 => ModUnique(4 * b, 0x100, 3, 4 * b - 0x300);
    case 3 => ModUnique(8 * b, 0x100, 7, 8 * b - 0x700);
    case 4 => ModUnique(16 * b, 0x100, 15, 16 * b - 0xF00);
    case 5 => ModUnique(32 * b, 0x100, 31, 32 * b - 0x1F00);
    case 6 => ModUnique(64 * b, 0x100, 63, 64 * b - 0x3F00);
  }

  lemma LeadMask(b: byte, len: nat)
    requires 2 <= len <= 4
    ensures Shl(1, 7 - len) >= 1
    ensures And(b, Shl(1, 7 - len) - 1) == LeadBits(b, len)
  {
    hide And;
    Pow2Values();
    AndMask(b, 7 - len);
  }

  /** `(c & 0xC0) != 0x80` */
  lemma TailTest(c: byte)
    ensures And(c, 0xC0) == 0x80 <==> 0x80 <= c <= 0xBF
  {
    hide And;
    Pow2Values();
    AndHighMask(c, 6, 8, 0xC0);
  }

  /** `(ucc << 6) | (c & 0x3F)` */
  lemma SixMoreBits(u: nat, c: byte)
    ensures Or(Shl(u, 6), And(c, 0x3F)) == 0x40 * u + c % 0x40
  {
    hide And, Or;
    Pow2Values();
    AndMask(c, 6);
    OrDisjoint(u, 6, c % 0x40);
  }

  method CountLeadingOnes(b: byte) returns (len: nat)
    ensures len == LeadingOnes(b)
  {
    hide And, LeadingOnes;
    len := 0;
    var mask := 0x80;
    while mask >= 0x04
      invariant len <= 6 && len <= LeadingOnes(b) && mask == Pow2(7 - len)
      decreases mask
    {
      Pow2Values();
      BitTest(b, 7 - len);
      if And(b, mask) == 0 { return; }
      len := len + 1;
      mask := mask / 2;
    }
    SixAtMost(len);
  }

  lemma SixAtMost(len: nat)
    requires len <= 6 && Pow2(7 - len) < 4
    ensures len == 6
  {
    Pow2Values();
  }

  /**
   FromUTF8 on a string with a zero behind it: the code point and the position behind its
   bytes, or -1. Reading stops at the terminator at the latest.
   */
  method FromUTF8(t: bytes, i: nat) returns (ucc: int, next: nat)
    requires i < |t| && t[|t| - 1] == 0
    ensures DecodeAt(t, i).Some? ==> (ucc, next) == (DecodeAt(t, i).value.0 as int, i + DecodeAt(t, i).value.1)
    ensures DecodeAt(t, i).None? ==> ucc == -1
  {
    hide And, Or, Shl, LeadingOnes, LeadBits;
    var b := t[i];
    next := i;
    LeadingOnesMean(b);
    NextBitClear(b);
    var len := CountLeadingOnes(b);
    if And(Shl(b, len) % 0x100, 0x80) != 0 { return -1, next; }
    if len == 0 { return b, i + 1; }
    if len < 2 || len > 4 { return -1, next; }
    LeadMask(b, len);
    var u: nat := And(b, Shl(1, 7 - len) - 1);
    next := i + 1;
    var k := 0;
    while k < len - 1
      invariant k <= len - 1 && next == i + 1 + k && next < |t|
      invariant Collect(t, i + 1, len - 1, LeadBits(b, len)) == Collect(t, next, len - 1 - k, u)
    {
      TailTest(t[next]);
      if And(t[next], 0xC0) != 0x80 { return -1, next; }
      SixMoreBits(u, t[next]);
      u := Or(Shl(u, 6), And(t[next], 0x3F));
      next := next + 1;
      k := k + 1;
    }
    ucc := u;
    if 0xD800 <= u <= 0xDFFF { return -1, next; }
    match len
    case 2 => if u < 0x80 || u > 0x7FF { return -1, next; }
    case 3 => if u < 0x800 || u > 0xFFFF { return -1, next; }
    case 4 => if u < 0x1_0000 || u > 0x10FFFF { return -1, next; }
  }

  lemma LeadingOnesMean(b: byte)
    ensures LeadingOnes(b) == 0 <==> b < 0x80
    ensures b >= 0xFE ==> LeadingOnes(b) == 6
  {
  }
}
