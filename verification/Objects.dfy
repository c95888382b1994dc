/**
 Strings and vectors: what CreateString, CreateVector and the offset vectors write is what
 the accessors read, aligned, with no padding between a length and the data it counts.
 */
module Objects {
  import opened Bits
  import opened Bytes
  import opened Wrappers
  import opened Table
  import opened BuilderModel
  import opened TableLayout

  predicate StringReads(d: bytes, off: nat, s: bytes) {
    off <= |d| && Aligned(off, 4) && StringBytes(d, |d| - off) == Ok((s, 0))
  }

  /** The vector at `off` holds `len` elements of `w` bytes, each aligned. */
  predicate VectorReads(d: bytes, off: nat, len: nat, w: nat, raw: bytes) {
    && 4 <= off <= |d| && Aligned(off, 4)
    && VectorSize(d, |d| - off) == Ok(len)
    && VectorBytes(d, |d| - off, w) == Ok(raw)
    && (len > 0 ==> Aligned(off - 4, w))
  }

  /** Element i of the vector at `off` refers to the object at `offs[i]`. */
  predicate OffsetVectorReads(d: bytes, off: nat, offs: seq<nat>) {
    && off <= |d| && Aligned(off, 4)
    && VectorSize(d, |d| - off) == Ok(|offs|)
    && (forall i :: 0 <= i < |offs| ==> VectorGetPointer(d, |d| - off, i) == Ok(|d| - offs[i]))
  }

  lemma StringReadsExtends(d: bytes, e: bytes, off: nat, s: bytes)
    requires Extends(d, e) && StringReads(d, off, s)
    ensures StringReads(e, off, s)
  {
    StringExtends(d, e, |d| - off);
  }

  lemma VectorReadsExtends(d: bytes, e: bytes, off: nat, len: nat, w: nat, raw: bytes)
    requires Extends(d, e) && VectorReads(d, off, len, w, raw)
    ensures VectorReads(e, off, len, w, raw)
  {
    LoadExtends(d, e, |d| - off, 4);
    VectorExtends(d, e, |d| - off, w);
  }

  /** Vector::Get: element i of a vector of scalars is its i-th word. */
  lemma VectorElementReads(d: bytes, off: nat, len: nat, w: nat, raw: bytes, i: nat)
    requires VectorReads(d, off, len, w, raw) && i < len
    ensures i * w + w <= |raw| == len * w
    ensures VectorGet(d, |d| - off, w, i) == Ok(FromLE(raw[i * w..i * w + w]))
  {
    hide Aligned, FromLE;
    StrideWithin(len, w, i);
    ElementSlice(d, |d| - off + 4, len * w, i * w, w);
  }

  lemma ElementSlice(d: bytes, p: nat, n: nat, i: nat, w: nat)
    requires i + w <= n && LoadBytes(d, p, n).Ok?
    ensures |LoadBytes(d, p, n).value| == n
    ensures Load(d, p + i, w) == Ok(FromLE(LoadBytes(d, p, n).value[i..i + w]))
  {
    hide FromLE;
    SliceOfSlice(d, p, n, i, i + w);
  }

  lemma SliceOfSlice(d: bytes, p: nat, n: nat, i: nat, j: nat)
    requires i <= j <= n && p + n <= |d|
    ensures d[p..p + n][i..j] == d[p + i..p + j]
  {
    var s, t := d[p..p + n][i..j], d[p + i..p + j];
    assert |s| == |t| && forall k :: 0 <= k < |s| ==> s[k] == t[k];
  }

  lemma StrideWithin(len: nat, w: nat, i: nat)
    requires i < len
    ensures i * w + w <= len * w
  {
    assert len * w == i * w + w + (len - i - 1) * w;
  }

  lemma OffsetVectorReadsExtends(d: bytes, e: bytes, off: nat, offs: seq<nat>)
    requires Extends(d, e) && OffsetVectorReads(d, off, offs)
    ensures OffsetVectorReads(e, off, offs)
  {
    LoadExtends(d, e, |d| - off, 4);
    forall i | 0 <= i < |offs|
      ensures VectorGetPointer(e, |e| - off, i) == Ok(|e| - offs[i])
    {
      assert VectorGetPointer(d, |d| - off, i) == Ok(|d| - offs[i]);
      LoadExtends(d, e, |d| - off + 4 + i * 4, 4);
    }
  }

  /** Pushing a length onto aligned data adds no padding. */
  lemma PushLengthExact(b: Buf, len: nat)
    requires Aligned(|b.data|, 4)
    ensures PushElement(b, 4, len).data == ToLE(len, 4) + b.data
  {
    PaddingUnique(|b.data|, 4, 0);
    assert Zeros(0) + b.data == b.data;
  }

  lemma LengthThenData(len: nat, payload: bytes, rest: bytes)
    requires len < 0x1_0000_0000
    ensures var d := ToLE(len, 4) + (payload + rest);
            && Load(d, 0, 4) == Ok(len)
            && LoadBytes(d, 4, |payload|) == Ok(payload)
            && Extends(rest, d) && Extends(payload + rest, d)
            && (rest != [] ==> Load(d, 4 + |payload|, 1) == Ok(rest[0]))
  {
    hide ToLE;
    Pow256Values();
    var d := ToLE(len, 4) + (payload + rest);
    LoadFront(ToLE(len, 4), payload + rest, len, 4);
    assert d[4..4 + |payload|] == payload;
    PrependExtends(payload, rest);
    PrependExtends(ToLE(len, 4), payload + rest);
    ExtendsTransitive(rest, payload + rest, d);
    if rest != [] {
      var k := 4 + |payload|;
      assert d[k..k + 1] == [rest[0]];
      assert FromLE([rest[0]]) == rest[0];
    }
  }

  lemma FourIsAlign()
    ensures IsAlign(4)
  {
  }

  lemma CreateStringReads(b: Buf, s: bytes)
    requires |s| < 0xFFFF_FFFF
    ensures var r := CreateString(b, s);
            && Grew(b, r) && r.minAlign >= 4
            && |b.data| + |s| + 5 <= |r.data| < |b.data| + |s| + 9
            && StringReads(r.data, |r.data|, s)
  {
    hide Rem, Padding, FromLE, ToLE, IsAlign, LoadBytes, Load;
    FourIsAlign();
    var b1 := PreAlign(b, |s| + 1, 4);
    var b3 := PushBytes(Pad(b1, 1), s);
    PreAlignFacts(b, |s| + 1, 4);
    assert |b3.data| == |b1.data| + (|s| + 1);
    PushLengthExact(b3, |s|);
    PushElementKeepsAlign(b3, |s|);
    LengthThenData(|s|, s, Zeros(1) + b1.data);
    PrependExtends(Zeros(1), b1.data);
    var d := CreateString(b, s).data;
    ExtendsTransitive(b1.data, Zeros(1) + b1.data, d);
    ExtendsTransitive(b.data, b1.data, d);
    AlignedShift4(|b3.data|);
    StringFromParts(d, s);
  }

  lemma PushElementKeepsAlign(b: Buf, value: nat)
    ensures var r := PushElement(b, 4, value);
            r.minAlign >= 4 && r.minAlign >= b.minAlign && (IsAlign(b.minAlign) ==> IsAlign(r.minAlign))
  {
  }

  lemma AlignedShift4(n: nat)
    requires Aligned(n, 4)
    ensures Aligned(n + 4, 4)
  {
  }

  lemma StringFromParts(d: bytes, s: bytes)
    requires Load(d, 0, 4) == Ok(|s|) && LoadBytes(d, 4, |s|) == Ok(s) && Load(d, 4 + |s|, 1) == Ok(0)
    ensures StringBytes(d, 0) == Ok((s, 0))
  {
  }

  /** Both pre-alignments together leave room for `n` bytes of aligned data and an adjacent length. */
  predicate RoomFor(b: Buf, r: Buf, n: nat, w: nat) {
    && Grew(b, r)
    && |b.data| <= |r.data| < |b.data| + 4 + w
    && (n > 0 ==> Aligned(|r.data| + n, 4) && Aligned(|r.data| + n, w) && r.minAlign >= 4 && r.minAlign >= w)
  }

  lemma DoublePreAlign(b: Buf, n: nat, w: nat)
    requires w == 1 || w == 2 || w == 4 || w == 8
    ensures RoomFor(b, PreAlign(PreAlign(b, n, 4), n, w), n, w)
  {
    var b1 := PreAlign(b, n, 4);
    if n == 0 {
      assert Grew(b, b) by { assert b.data[|b.data| - |b.data|..] == b.data; }
    } else if w >= 4 {
      WidePreAlign(b, n, w);
    } else {
      NarrowPreAlign(b, n, w);
    }
  }

  lemma WidePreAlign(b: Buf, n: nat, w: nat)
    requires (w == 4 || w == 8) && n > 0
    ensures RoomFor(b, PreAlign(PreAlign(b, n, 4), n, w), n, w)
  {
    assert IsAlign(w) && IsAlign(4);
    hide Rem, Padding, PreAlign, IsAlign, Extends, Aligned;
    var b1 := PreAlign(b, n, 4);
    var r := PreAlign(b1, n, w);
    PreAlignFacts(b, n, 4);
    PreAlignFacts(b1, n, w);
    GrewTransitive(b, b1, r);
    AlignedWeaker(|r.data| + n, w, 4);
  }

  lemma NarrowPreAlign(b: Buf, n: nat, w: nat)
    requires (w == 1 || w == 2) && n > 0
    ensures RoomFor(b, PreAlign(PreAlign(b, n, 4), n, w), n, w)
  {
    assert IsAlign(w) && IsAlign(4);
    hide Rem, Padding, PreAlign, IsAlign, Extends, Aligned;
    var b1 := PreAlign(b, n, 4);
    var r := PreAlign(b1, n, w);
    PreAlignFacts(b, n, 4);
    PreAlignFacts(b1, n, w);
    GrewTransitive(b, b1, r);
    AlignedWeaker(|b1.data| + n, 4, w);
    SecondPreAlignIdle(b1, n, w);
    assert |r.data| + n == |b1.data| + n;
    hide Grew;
  }

  lemma StartVectorFacts(b: Buf, len: nat, w: nat)
    requires w == 1 || w == 2 || w == 4 || w == 8
    ensures var r := StartVector(b, len, w);
            && Grew(b, r)
            && |b.data| <= |r.data| < |b.data| + 4 + w
            && (len > 0 ==> && Aligned(|r.data| + len * w, 4) && Aligned(|r.data| + len * w, w)
                            && r.minAlign >= 4 && r.minAlign >= w)
  {
    hide Rem, Padding, PreAlign;
    DoublePreAlign(b, len * w, w);
    if len > 0 { MulAtLeast(w, len); }
  }

  lemma SecondPreAlignIdle(b: Buf, n: nat, w: nat)
    requires IsAlign(w) && n > 0 && Aligned(|b.data| + n, w)
    ensures |PreAlign(b, n, w).data| == |b.data|
  {
    PaddingUnique(|b.data| + n, w, 0);
  }

  lemma CreateVectorReads(b: Buf, len: nat, w: nat, raw: bytes)
    requires w == 1 || w == 2 || w == 4 || w == 8
    requires |raw| == len * w && len < 0x1_0000_0000
    ensures var r := CreateVector(b, len, w, raw);
            && Grew(b, r) && r.minAlign >= 4 && (len > 0 ==> r.minAlign >= w)
            && |b.data| + |raw| + 4 <= |r.data| < |b.data| + |raw| + 12 + w
            && VectorReads(r.data, |r.data|, len, w, raw)
  {
    hide PreAlign, PushElement, VectorReads, Grew, Aligned;
    var b1 := StartVector(b, len, w);
    StartVectorFacts(b, len, w);
    if len > 0 {
      assert |PushBytes(b1, raw).data| == |b1.data| + len * w;
      FullVector(b, b1, len, w, raw);
    } else {
      assert raw == [];
      EmptyVector(b, b1, w);
    }
  }

  lemma FullVector(b: Buf, b1: Buf, len: nat, w: nat, raw: bytes)
    requires Grew(b, b1) && |raw| == len * w && 0 < len < 0x1_0000_0000
    requires Aligned(|PushBytes(b1, raw).data|, 4) && Aligned(|PushBytes(b1, raw).data|, w)
    requires b1.minAlign >= 4 && b1.minAlign >= w
    ensures var r := PushElement(PushBytes(b1, raw), 4, len);
            && Grew(b, r) && r.minAlign >= 4 && r.minAlign >= w
            && |r.data| == |b1.data| + |raw| + 4
            && VectorReads(r.data, |r.data|, len, w, raw)
  {
    hide Rem, Padding, FromLE, ToLE, LoadBytes, Load, VectorSize, VectorBytes, Align, IsAlign;
    FourIsAlign();
    var b2 := PushBytes(b1, raw);
    var r := PushElement(b2, 4, len);
    PushElementKeepsAlign(b2, len);
    PushLengthExact(b2, len);
    LengthThenData(len, raw, b1.data);
    ExtendsTransitive(b.data, b1.data, r.data);
    AlignedShift4(|b2.data|);
    VectorFromParts(r.data, len, w, raw);
  }

  lemma EmptyVector(b: Buf, b1: Buf, w: nat)
    requires Grew(b, b1)
    ensures var r := PushElement(PushBytes(b1, []), 4, 0);
            && Grew(b, r) && r.minAlign >= 4
            && |b1.data| + 4 <= |r.data| < |b1.data| + 8
            && VectorReads(r.data, |r.data|, 0, w, [])
  {
    hide Rem, Padding, FromLE, ToLE, LoadBytes, Load, VectorSize, VectorBytes, PushElement, IsAlign;
    FourIsAlign();
    assert PushBytes(b1, []) == b1 by { assert [] + b1.data == b1.data; }
    var r := PushElement(b1, 4, 0);
    Pow256Values();
    PushElementFacts(b1, 4, 0);
    GrewTransitive(b, b1, r);
    EmptyVectorFromParts(r.data, w);
  }

  lemma VectorFromParts(d: bytes, len: nat, w: nat, raw: bytes)
    requires |raw| == len * w
    requires Load(d, 0, 4) == Ok(len) && LoadBytes(d, 4, |raw|) == Ok(raw)
    ensures VectorSize(d, 0) == Ok(len) && VectorBytes(d, 0, w) == Ok(raw)
  {
  }

  lemma EmptyVectorFromParts(d: bytes, w: nat)
    requires Load(d, 0, 4) == Ok(0)
    ensures VectorSize(d, 0) == Ok(0) && VectorBytes(d, 0, w) == Ok([])
  {
    assert 0 * w == 0;
    assert d[4..4] == [];
  }

  lemma {:induction false} PushOffsetsReads(b: Buf, offs: seq<nat>)
    requires Aligned(|b.data|, 4) && |b.data| + 4 * |offs| < 0x8000_0000
    requires forall o :: o in offs ==> 0 < o <= |b.data|
    ensures var r := PushOffsets(b, offs);
            && Grew(b, r) && (offs != [] ==> r.minAlign >= 4)
            && |r.data| == |b.data| + 4 * |offs| && Aligned(|r.data|, 4)
            && (forall i :: 0 <= i < |offs| ==> Load(r.data, 4 * i, 4) == Ok(|r.data| - 4 * i - offs[i]))
    decreases |offs|
  {
    hide PushOffset, Rem, Load, IsAlign;
    if offs == [] {
      assert b.data[|b.data| - |b.data|..] == b.data;
    } else {
      var n := |offs| - 1;
      assert offs[n] in offs && forall o :: o in offs[..n] ==> o in offs;
      var b' := PushOffset(b, offs[n]);
      var r := PushOffsets(b, offs);
      PushOffsetFacts(b, offs[n]);
      PushOffsetExact(b, offs[n]);
      PushOffsetsReads(b', offs[..n]);
      assert r == PushOffsets(b', offs[..n]);
      GrewTransitive(b, b', r);
      LoadExtends(b'.data, r.data, 0, 4);
      forall i | 0 <= i < |offs|
        ensures Load(r.data, 4 * i, 4) == Ok(|r.data| - 4 * i - offs[i])
      {
        if i < n { assert offs[..n][i] == offs[i]; }
      }
    }
  }

  lemma PushOffsetExact(b: Buf, off: nat)
    requires Aligned(|b.data|, 4) && off <= |b.data|
    ensures |PushOffset(b, off).data| == |b.data| + 4
  {
    PaddingUnique(|b.data|, 4, 0);
    PaddingUnique(|Align(b, 4).data|, 4, 0);
  }

  lemma {:induction false} PushOffsetsLonger(b: Buf, offs: seq<nat>)
    requires forall o :: o in offs ==> o <= |b.data|
    ensures |PushOffsets(b, offs).data| >= |b.data| + 4 * |offs|
    decreases |offs|
  {
    if offs != [] {
      var n := |offs| - 1;
      assert offs[n] in offs && forall o :: o in offs[..n] ==> o in offs;
      PushOffsetsLonger(PushOffset(b, offs[n]), offs[..n]);
    }
  }

  lemma PushElementLonger(b: Buf, value: nat)
    ensures |PushElement(b, 4, value).data| >= |b.data| + 4
  {
  }

  lemma StartVectorLonger(b: Buf, len: nat)
    ensures |StartVector(b, len, 4).data| >= |b.data|
  {
    hide Padding;
  }

  lemma OffsetVectorLonger(b: Buf, offs: seq<nat>)
    requires forall o :: o in offs ==> o <= |b.data|
    ensures |StartVector(b, |offs|, 4).data| + 4 * |offs| + 4 <= |CreateOffsetVector(b, offs).data|
  {
    hide PreAlign, PushOffsets, PushElement;
    var b1 := StartVector(b, |offs|, 4);
    DoublePreAlign(b, |offs| * 4, 4);
    PushOffsetsLonger(b1, offs);
    PushElementLonger(PushOffsets(b1, offs), |offs|);
  }

  lemma CreateOffsetVectorReads(b: Buf, offs: seq<nat>)
    requires forall o :: o in offs ==> 0 < o <= |b.data|
    requires |CreateOffsetVector(b, offs).data| < LIMIT
    ensures var r := CreateOffsetVector(b, offs);
            && Grew(b, r) && r.minAlign >= 4
            && |b.data| + 4 * |offs| + 4 <= |r.data| < |b.data| + 4 * |offs| + 16
            && OffsetVectorReads(r.data, |r.data|, offs)
  {
    hide Aligned, Padding, PreAlign, PushElement, PushOffsets, Load, IsAlign, OffsetVectorReads, ToLE, Extends;
    FourIsAlign();
    var b1 := StartVector(b, |offs|, 4);
    DoublePreAlign(b, |offs| * 4, 4);
    OffsetVectorLonger(b, offs);
    if offs != [] {
      OffsetRoomAligned(|b1.data|, |offs|);
      PushOffsetsReads(b1, offs);
    } else {
      NoOffsets(b1);
    }
    var b2 := PushOffsets(b1, offs);
    GrewTransitive(b, b1, b2);
    OffsetVectorEnd(b, b2, offs);
  }

  lemma OffsetVectorEnd(b: Buf, b2: Buf, offs: seq<nat>)
    requires Grew(b, b2) && |offs| < 0x2000_0000
    requires offs != [] ==> Aligned(|b2.data|, 4)
    requires forall i :: 0 <= i < |offs| ==> Load(b2.data, 4 * i, 4) == Ok(|b2.data| - 4 * i - offs[i])
    ensures var r := PushElement(b2, 4, |offs|);
            && Grew(b, r) && r.minAlign >= 4
            && |b2.data| + 4 <= |r.data| < |b2.data| + 8
            && OffsetVectorReads(r.data, |r.data|, offs)
  {
    hide Rem, Padding, PushElement, Load, ToLE, VectorGetPointer;
    Pow256Values();
    var r := PushElement(b2, 4, |offs|);
    PushElementFacts(b2, 4, |offs|);
    GrewTransitive(b, b2, r);
    if offs != [] {
      PushLengthExact(b2, |offs|);
      OffsetElements(b2.data, r.data, offs);
    }
  }

  lemma OffsetElements(d: bytes, e: bytes, offs: seq<nat>)
    requires Extends(d, e) && |e| == |d| + 4
    requires forall i :: 0 <= i < |offs| ==> Load(d, 4 * i, 4) == Ok(|d| - 4 * i - offs[i])
    ensures forall i :: 0 <= i < |offs| ==> VectorGetPointer(e, 0, i) == Ok(|e| - offs[i])
  {
    forall i | 0 <= i < |offs|
      ensures VectorGetPointer(e, 0, i) == Ok(|e| - offs[i])
    {
      assert Load(d, 4 * i, 4) == Ok(|d| - 4 * i - offs[i]);
      LoadExtends(d, e, 4 * i, 4);
    }
  }

  lemma NoOffsets(b: Buf)
    ensures PushOffsets(b, []) == b && Grew(b, b)
  {
    assert b.data[|b.data| - |b.data|..] == b.data;
  }

  lemma {:induction false} OffsetRoomAligned(size: nat, n: nat)
    requires Aligned(size + n * 4, 4)
    ensures Aligned(size, 4)
    decreases n
  {
    if n > 0 { OffsetRoomAligned(size, n - 1); }
  }

  // ---------- Finish ----------

  lemma GrewLonger(b: Buf, r: Buf)
    requires Grew(b, r)
    ensures |r.data| >= |b.data|
  {
  }

  lemma GrewRefl(b: Buf)
    ensures Grew(b, b)
  {
    assert b.data[|b.data| - |b.data|..] == b.data;
  }

  /** Finishing aligns the whole buffer and puts the root's offset in front. */
  lemma FinishFacts(b: Buf, root: nat)
    requires IsAlign(b.minAlign) && b.minAlign >= 4
    requires 0 < root <= |b.data| && |FinishBuf(b, root).data| < LIMIT
    ensures var r := FinishBuf(b, root);
            && Grew(b, r) && r.minAlign == b.minAlign
            && Aligned(|r.data|, b.minAlign) && |r.data| < |b.data| + b.minAlign + 4
            && GetRoot(r.data) == Ok(|r.data| - root)
  {
    var m := b.minAlign;
    hide Rem, Padding, IsAlign, Load, PushElement;
    FourIsAlign();
    var b1 := PreAlign(b, 4, m);
    PreAlignFacts(b, 4, m);
    PushElementLonger(Align(b1, 4), ReferTo(Align(b1, 4), root));
    AlignedWeaker(|b1.data| + 4, m, 4);
    AlignedLess4(|b1.data|);
    PushOffsetFacts(b1, root);
    PushOffsetExact(b1, root);
    GrewTransitive(b, b1, FinishBuf(b, root));
    PushOffsetMinAlign(b1, root);
  }

  lemma AlignedLess4(n: nat)
    requires Aligned(n + 4, 4)
    ensures Aligned(n, 4)
  {
  }

  lemma PushOffsetMinAlign(b: Buf, off: nat)
    requires off <= |b.data| && b.minAlign >= 4
    ensures PushOffset(b, off).minAlign == b.minAlign
  {
  }
}
