/**
 What CreateVector leaves in the buffer: every element, stored at the common width, still
 denotes what it denoted on the stack, so the vector denotes the sequence of them.
 */
module FlexVectors {
  import opened Bits
  import opened Bytes
  import opened Wrappers
  import opened Table
  import opened FlexWidths
  import opened FlexReader
  import opened FlexModel

  /** Buffers and stacks that keep all 64-bit positions exact. */
  const FLEX_LIMIT: nat := 0x40_0000_0000_0000

  /** The stack entry stands for this tree, given what is in the buffer. */
  ghost predicate Holds(b: bytes, v: Value, t: Tree) {
    match t
    case NullT => v == Value(0, FBT_NULL, 0)
    case BoolT(x) => v == Value(if x then 1 else 0, FBT_BOOL, 0)
    case IntT(i) => IsInt64(i) && v == Value(i, FBT_INT, WidthI(i))
    case UIntT(u) => u < WORD && v == Value(u, FBT_UINT, WidthU(u))
    case _ => v.typ == OffsetType(t) && 0 <= v.u <= |b| && DenotesAt(b, v.u, ByteWidth(v.minWidth), t)
  }

  predicate HoldsKey(b: bytes, v: Value, key: bytes) {
    v.typ == FBT_KEY && CString(b, v.u) == Ok(key)
  }

  lemma HoldsGrows(b: bytes, c: bytes, v: Value, t: Tree)
    requires b <= c && Holds(b, v, t)
    ensures Holds(c, v, t)
  {
    if t.StringT? || t.BlobT? || t.VectorT? || t.MapT? { DenotesAtGrows(b, c, v.u, ByteWidth(v.minWidth), t); }
  }

  // ---------- Single writes ----------

  lemma WriteLoads(b: bytes, val: int, w: nat)
    ensures var c := Write(b, val, w);
            b <= c && |c| == |b| + w && Load(c, |b|, w) == Ok(Unsigned(val, w))
  {
    var c := Write(b, val, w);
    assert c[|b|..|b| + w] == ToLE(Unsigned(val, w), w);
    LoadStored(Unsigned(val, w), w);
    ModUnique(Unsigned(val, w), Pow256(w), 0, Unsigned(val, w));
  }

  /** What is written for a value in the slot at `p`. */
  function SlotValue(v: Value, p: nat): int {
    if IsInline(v.typ) then v.u else p - v.u
  }

  lemma WriteAnyLoads(b: bytes, v: Value, w: nat)
    ensures var c := WriteAny(b, v, w);
            b <= c && |c| == |b| + w && Load(c, |b|, w) == Ok(Unsigned(SlotValue(v, |b|), w))
  {
    WriteLoads(b, SlotValue(v, |b|), w);
  }

  lemma {:induction false} ElementsGrow(b: bytes, vals: seq<Value>, w: nat)
    ensures var c := WriteElements(b, vals, w); b <= c && |c| == |b| + |vals| * w
    decreases |vals|
  {
    hide WriteAny, Load;
    if vals != [] {
      var n := |vals| - 1;
      assert |vals| * w == n * w + w;
      ElementsGrow(b, vals[..n], w);
      WriteAnyLoads(WriteElements(b, vals[..n], w), vals[n], w);
    }
  }

  /** Element i lies i slots behind the start. */
  lemma {:induction false} ElementLoads(b: bytes, vals: seq<Value>, w: nat, i: nat)
    requires i < |vals|
    ensures var p := |b| + i * w;
            Load(WriteElements(b, vals, w), p, w) == Ok(Unsigned(SlotValue(vals[i], p), w))
    decreases |vals|
  {
    hide Load, WriteAny, SlotValue, Unsigned;
    var n := |vals| - 1;
    var before := WriteElements(b, vals[..n], w);
    assert WriteElements(b, vals, w) == WriteAny(before, vals[n], w);
    hide WriteElements;
    ElementsGrow(b, vals[..n], w);
    WriteAnyLoads(before, vals[n], w);
    if i < n {
      ElementLoads(b, vals[..n], w, i);
      LoadGrows(before, WriteElements(b, vals, w), |b| + i * w, w);
    }
  }

  lemma {:induction false} TypesGrow(b: bytes, vals: seq<Value>, bw: Width)
    ensures var c := WriteTypes(b, vals, bw); b <= c && |c| == |b| + |vals|
    decreases |vals|
  {
    if vals != [] { TypesGrow(b, vals[..|vals| - 1], bw); }
  }

  lemma {:induction false} TypeLoads(b: bytes, vals: seq<Value>, bw: Width, i: nat)
    requires i < |vals|
    ensures Load(WriteTypes(b, vals, bw), |b| + i, 1) == Ok(StoredPackedType(vals[i], bw))
    decreases |vals|
  {
    hide StoredPackedType;
    var n := |vals| - 1;
    var before, c := WriteTypes(b, vals[..n], bw), WriteTypes(b, vals, bw);
    TypesGrow(b, vals[..n], bw);
    if i < n {
      TypeLoads(b, vals[..n], bw, i);
      LoadGrows(before, c, |b| + i, 1);
    } else {
      OneByte(c, |b| + n);
    }
  }

  lemma OneByte(b: bytes, p: nat)
    requires p < |b|
    ensures Load(b, p, 1) == Ok(b[p])
  {
    assert b[p..p + 1] == [b[p]];
    assert [b[p]][1..] == [];
    assert FromLE([b[p]]) == b[p] + 256 * FromLE([]);
  }

  // ---------- A slot denotes its value ----------

  /** The slot at `p` has room for the value. */
  predicate Fits(v: Value, p: nat, bw: Width) {
    if IsInline(v.typ) then v.minWidth <= bw else 0 <= p - v.u < Capacity(bw)
  }

  lemma CapacityGrows(a: Width, b: Width)
    requires a <= b
    ensures Capacity(a) <= Capacity(b)
  {
  }

  /** An inline integer keeps its value under sign extension at every width not below its own. */
  lemma IntFits(i: int, bw: Width)
    requires IsInt64(i) && WidthI(i) <= bw
    ensures Signed(Unsigned(i, ByteWidth(bw)), ByteWidth(bw)) == i
  {
    CapacityGrows(WidthI(i), bw);
    CapacityIsPow256(bw);
    SignedUnsigned(i, ByteWidth(bw));
  }

  lemma NatFits(n: nat, bw: Width)
    requires n < Capacity(bw)
    ensures Unsigned(n, ByteWidth(bw)) == n
  {
    CapacityIsPow256(bw);
    ModUnique(n, Pow256(ByteWidth(bw)), 0, n);
  }

  lemma UIntFits(u: nat, bw: Width)
    requires u < WORD && WidthU(u) <= bw
    ensures Unsigned(u, ByteWidth(bw)) == u
  {
    CapacityGrows(WidthU(u), bw);
    NatFits(u, bw);
  }

  lemma TargetOfSlot(c: bytes, v: Value, p: nat, bw: Width, r: Reference)
    requires !IsInline(v.typ) && Fits(v, p, bw)
    requires r.data == p && r.parentWidth == ByteWidth(bw)
    requires Load(c, p, ByteWidth(bw)) == Ok(Unsigned(SlotValue(v, p), ByteWidth(bw)))
    ensures Target(c, r) == Ok(v.u)
  {
    hide Load, Unsigned;
    NatFits(p - v.u, bw);
  }

  /** The reference a reader makes of the slot at `p` of width `bw`. */
  function SlotReference(v: Value, p: nat, bw: Width): Reference {
    Packed(p, ByteWidth(bw), StoredPackedType(v, bw))
  }

  lemma SlotReferenceIs(v: Value, p: nat, bw: Width)
    requires v.typ < 64
    ensures SlotReference(v, p, bw) == Reference(p, ByteWidth(bw), ByteWidth(StoredWidth(v, bw)), v.typ)
  {
    PackUnpack(p, ByteWidth(bw), StoredWidth(v, bw), v.typ);
  }

  lemma SlotDenotes(b: bytes, c: bytes, v: Value, t: Tree, p: nat, bw: Width)
    requires b <= c && Holds(b, v, t) && Fits(v, p, bw)
    requires Load(c, p, ByteWidth(bw)) == Ok(Unsigned(SlotValue(v, p), ByteWidth(bw)))
    ensures Denotes(c, SlotReference(v, p, bw), t)
  {
    hide Load, Unsigned, Signed, Packed, StoredPackedType, DenotesAt, SlotReference, WidthI, WidthU, Target;
    SlotReferenceIs(v, p, bw);
    var r := SlotReference(v, p, bw);
    match t
    case NullT =>
    case BoolT(x) => NatFits(v.u, bw);
    case IntT(i) => IntFits(i, bw);
    case UIntT(u) => UIntFits(u, bw);
    case _ =>
      HoldsGrows(b, c, v, t);
      TargetOfSlot(c, v, p, bw, r);
  }

  // ---------- Widths ----------

  /** The chosen width covers every element's estimate, and everything it started from. */
  lemma {:induction false} VectorWidthCovers(bw: Width, size: nat, vals: seq<Value>, step: nat, prefix: nat)
    ensures var r := VectorWidth(bw, size, vals, step, prefix);
            && bw <= r
            && forall i :: 0 <= i < |vals| ==> ElemWidth(vals[i], size, i * step + prefix) <= r
    decreases |vals|
  {
    hide ElemWidth;
    if vals != [] {
      var n := |vals| - 1;
      VectorWidthCovers(bw, size, vals[..n], step, prefix);
      assert forall i :: 0 <= i < n ==> vals[..n][i] == vals[i];
    }
  }

  /** A value fits its slot at any width that covers an estimate at least as far out. */
  lemma CoveredFits(v: Value, size: nat, index: nat, estimate: nat, bw: Width)
    requires !IsInline(v.typ) ==> 0 <= v.u <= size
    requires size < SIZE_LIMIT && index <= estimate < SIZE_LIMIT
    requires ElemWidth(v, size, estimate) <= bw
    ensures Fits(v, SlotPosition(size, index, bw), bw)
  {
    hide Padding, Capacity;
    if !IsInline(v.typ) {
      var own := OffsetWidth(size, estimate, v.u, 0);
      OffsetWidthLeast(size, estimate, v.u, 0);
      WiderStillFits(size, index, estimate, v.u, own, bw);
      RelativeNotNegative(size, index, v.u, bw);
    }
  }

  lemma RelativeNotNegative(size: nat, index: nat, target: nat, bw: Width)
    requires target <= size
    ensures 0 <= Relative(size, index, target, bw)
  {
  }

  // ---------- The layout of a vector ----------

  function PrefixSlots(keys: Option<Value>): nat {
    if keys.Some? then 3 else 1
  }

  /** The header ends where the estimates put the first element. */
  lemma HeaderEnds(b: bytes, keys: Option<Value>, n: nat, bw: Width)
    ensures var h := WriteHeader(b, keys, n, ByteWidth(bw));
            && b <= h && |h| == SlotPosition(|b|, PrefixSlots(keys), bw)
            && Load(h, |h| - ByteWidth(bw), ByteWidth(bw)) == Ok(Unsigned(n, ByteWidth(bw)))
  {
    hide Unsigned, Load;
    var w := ByteWidth(bw);
    var a := Align(b, w);
    assert b <= a;
    if keys.Some? {
      WriteLoads(a, |a| - keys.value.u, w);
      WriteLoads(WriteOffset(a, keys.value.u, w), ByteWidth(keys.value.minWidth), w);
    }
    WriteLoads(WriteKeys(a, keys, w), n, w);
  }

  /** The two slots before the size of a map. */
  lemma MapPrefix(b: bytes, k: Value, n: nat, bw: Width)
    ensures var w := ByteWidth(bw);
            var h := WriteHeader(b, Some(k), n, w);
            var p := SlotPosition(|b|, 0, bw);
            && p == |h| - 3 * w
            && Load(h, p, w) == Ok(Unsigned(p - k.u, w))
            && Load(h, p + w, w) == Ok(Unsigned(ByteWidth(k.minWidth), w))
  {
    hide Unsigned, Load;
    var w := ByteWidth(bw);
    var a := Align(b, w);
    WriteLoads(a, |a| - k.u, w);
    var c := WriteOffset(a, k.u, w);
    WriteLoads(c, ByteWidth(k.minWidth), w);
    var d := Write(c, ByteWidth(k.minWidth), w);
    WriteLoads(d, n, w);
    LoadGrows(c, d, |a|, w);
    LoadGrows(d, Write(d, n, w), |a|, w);
    LoadGrows(d, Write(d, n, w), |a| + w, w);
  }

  lemma SlotsAfter(size: nat, prefix: nat, i: nat, bw: Width)
    ensures SlotPosition(size, prefix + i, bw) == SlotPosition(size, prefix, bw) + i * ByteWidth(bw)
  {
  }

  /** Slot i of the vector at `pos` has room for value i and holds it. */
  predicate ElementAt(c: bytes, pos: nat, bw: Width, vals: seq<Value>, i: nat)
    requires i < |vals|
  {
    var p := pos + i * ByteWidth(bw);
    Fits(vals[i], p, bw) && Load(c, p, ByteWidth(bw)) == Ok(Unsigned(SlotValue(vals[i], p), ByteWidth(bw)))
  }

  predicate TypeAt(c: bytes, pos: nat, bw: Width, vals: seq<Value>, i: nat)
    requires i < |vals|
  {
    Load(c, pos + |vals| * ByteWidth(bw) + i, 1) == Ok(StoredPackedType(vals[i], bw))
  }

  /** What CreateVector asks of the values: data they refer to is already in the buffer. */
  predicate Placed(b: bytes, v: Value) {
    PlacedBelow(|b|, v)
  }

  predicate PlacedBelow(size: nat, v: Value) {
    IsInline(v.typ) || 0 <= v.u <= size
  }

  predicate AllPlaced(b: bytes, vals: seq<Value>) {
    forall i :: 0 <= i < |vals| ==> Placed(b, vals[i])
  }

  predicate KeysPlaced(b: bytes, keys: Option<Value>) {
    keys.Some? ==> !IsInline(keys.value.typ) && Placed(b, keys.value)
  }

  lemma ElementFits(b: bytes, minWidth: Width, vals: seq<Value>, step: nat, keys: Option<Value>, i: nat)
    requires |b| < FLEX_LIMIT && |vals| < FLEX_LIMIT && 1 <= step <= 2 && i < |vals| && Placed(b, vals[i])
    ensures var bw := LayoutWidth(b, minWidth, vals, step, keys);
            Fits(vals[i], SlotPosition(|b|, PrefixSlots(keys) + i, bw), bw)
  {
    hide VectorWidth, ElemWidth, Fits, SizeWidth, SlotPosition;
    var start := MaxWidth(minWidth, SizeWidth(|vals|));
    var first := if keys.Some? then MaxWidth(start, ElemWidth(keys.value, |b|, 0)) else start;
    VectorWidthCovers(first, |b|, vals, step, PrefixSlots(keys));
    CoveredFits(vals[i], |b|, PrefixSlots(keys) + i, i * step + PrefixSlots(keys),
        LayoutWidth(b, minWidth, vals, step, keys));
  }

  lemma LayoutCovers(b: bytes, minWidth: Width, vals: seq<Value>, step: nat, keys: Option<Value>)
    ensures var bw := LayoutWidth(b, minWidth, vals, step, keys);
            && SizeWidth(|vals|) <= bw
            && (keys.Some? ==> ElemWidth(keys.value, |b|, 0) <= bw)
  {
    hide VectorWidth, ElemWidth, SizeWidth;
    var start := MaxWidth(minWidth, SizeWidth(|vals|));
    var first := if keys.Some? then MaxWidth(start, ElemWidth(keys.value, |b|, 0)) else start;
    VectorWidthCovers(first, |b|, vals, step, PrefixSlots(keys));
  }

  /** Where the vector ends up, and that the buffer was only appended to. */
  lemma VectorPlace(b: bytes, minWidth: Width, vals: seq<Value>, step: nat, typed: bool, keys: Option<Value>)
    ensures var (c, v) := CreateVector(b, minWidth, vals, step, typed, keys);
            && b <= c
            && v.minWidth == LayoutWidth(b, minWidth, vals, step, keys)
            && v.u == SlotPosition(|b|, PrefixSlots(keys), v.minWidth) && |b| <= v.u
            && v.u + |vals| <= |c|
            && WriteHeader(b, keys, |vals|, ByteWidth(v.minWidth)) <= c
            && |WriteHeader(b, keys, |vals|, ByteWidth(v.minWidth))| == v.u
            && WriteElements(WriteHeader(b, keys, |vals|, ByteWidth(v.minWidth)), vals, ByteWidth(v.minWidth)) <= c
  {
    hide LayoutWidth, WriteHeader, Load;
    var bw := LayoutWidth(b, minWidth, vals, step, keys);
    var header := WriteHeader(b, keys, |vals|, ByteWidth(bw));
    HeaderEnds(b, keys, |vals|, bw);
    ElementsGrow(header, vals, ByteWidth(bw));
    MulGrows(|vals|, 1, ByteWidth(bw));
    TypesGrow(WriteElements(header, vals, ByteWidth(bw)), vals, bw);
  }

  lemma SizeStored(b: bytes, minWidth: Width, vals: seq<Value>, step: nat, typed: bool, keys: Option<Value>)
    requires |vals| < FLEX_LIMIT
    ensures var (c, v) := CreateVector(b, minWidth, vals, step, typed, keys);
            SizeAt(c, v.u, ByteWidth(v.minWidth)) == Ok(|vals|)
  {
    hide LayoutWidth, WriteHeader, CreateVector, Load, Unsigned, SlotPosition, WidthU;
    var (c, v) := CreateVector(b, minWidth, vals, step, typed, keys);
    VectorPlace(b, minWidth, vals, step, typed, keys);
    LayoutCovers(b, minWidth, vals, step, keys);
    HeaderEnds(b, keys, |vals|, v.minWidth);
    UIntFits(|vals|, v.minWidth);
    LoadGrows(WriteHeader(b, keys, |vals|, ByteWidth(v.minWidth)), c, v.u - ByteWidth(v.minWidth),
        ByteWidth(v.minWidth));
  }

  lemma ElementStored(b: bytes, minWidth: Width, vals: seq<Value>, step: nat, typed: bool, keys: Option<Value>, i: nat)
    requires |b| < FLEX_LIMIT && |vals| < FLEX_LIMIT && 1 <= step <= 2 && i < |vals| && Placed(b, vals[i])
    ensures var (c, v) := CreateVector(b, minWidth, vals, step, typed, keys);
            v.u >= 0 && ElementAt(c, v.u, v.minWidth, vals, i)
  {
    hide LayoutWidth, WriteHeader, CreateVector, WriteElements, Load, Unsigned, Fits, SlotPosition;
    var (c, v) := CreateVector(b, minWidth, vals, step, typed, keys);
    VectorPlace(b, minWidth, vals, step, typed, keys);
    var w := ByteWidth(v.minWidth);
    ElementFits(b, minWidth, vals, step, keys, i);
    SlotsAfter(|b|, PrefixSlots(keys), i, v.minWidth);
    var header := WriteHeader(b, keys, |vals|, w);
    ElementLoads(header, vals, w, i);
    LoadGrows(WriteElements(header, vals, w), c, v.u + i * w, w);
  }

  lemma TypeStored(b: bytes, minWidth: Width, vals: seq<Value>, step: nat, keys: Option<Value>, i: nat)
    requires i < |vals|
    ensures var (c, v) := CreateVector(b, minWidth, vals, step, false, keys);
            v.u >= 0 && TypeAt(c, v.u, v.minWidth, vals, i)
  {
    hide LayoutWidth, WriteHeader, WriteElements, WriteTypes, Load, SlotPosition, StoredPackedType;
    var (c, v) := CreateVector(b, minWidth, vals, step, false, keys);
    VectorPlace(b, minWidth, vals, step, false, keys);
    var w := ByteWidth(v.minWidth);
    var header := WriteHeader(b, keys, |vals|, w);
    ElementsGrow(header, vals, w);
    TypeLoads(WriteElements(header, vals, w), vals, v.minWidth, i);
  }

  lemma PrefixRead(c: bytes, pos: int, bw: Width, u: int, keysWidth: nat)
    requires pos - 3 * ByteWidth(bw) - u >= 0 && keysWidth < 0x100
    requires Load(c, pos - 3 * ByteWidth(bw), ByteWidth(bw)) == Ok(pos - 3 * ByteWidth(bw) - u)
    requires Load(c, pos - 2 * ByteWidth(bw), ByteWidth(bw)) == Ok(keysWidth)
    ensures Keys(c, pos, ByteWidth(bw)) == Ok((u, keysWidth))
  {
    hide Load;
  }

  /** A map's prefix leads to its keys. */
  lemma KeysStored(b: bytes, minWidth: Width, vals: seq<Value>, step: nat, typed: bool, k: Value)
    requires |b| < FLEX_LIMIT && |vals| < FLEX_LIMIT && KeysPlaced(b, Some(k))
    ensures var (c, v) := CreateVector(b, minWidth, vals, step, typed, Some(k));
            Keys(c, v.u, ByteWidth(v.minWidth)) == Ok((k.u, ByteWidth(k.minWidth)))
  {
    hide LayoutWidth, WriteHeader, CreateVector, Load, Unsigned, ElemWidth, Padding, WriteElements, Capacity, Keys;
    var (c, v) := CreateVector(b, minWidth, vals, step, typed, Some(k));
    VectorPlace(b, minWidth, vals, step, typed, Some(k));
    LayoutCovers(b, minWidth, vals, step, Some(k));
    var w := ByteWidth(v.minWidth);
    var p := SlotPosition(|b|, 0, v.minWidth);
    CoveredFits(k, |b|, 0, 0, v.minWidth);
    MapPrefix(b, k, |vals|, v.minWidth);
    NatFits(p - k.u, v.minWidth);
    KeyWidthSmall(v.minWidth);
    NatFits(ByteWidth(k.minWidth), v.minWidth);
    var header := WriteHeader(b, Some(k), |vals|, w);
    LoadGrows(header, c, p, w);
    LoadGrows(header, c, p + w, w);
    PrefixRead(c, v.u, v.minWidth, k.u, ByteWidth(k.minWidth));
  }

  lemma KeyWidthSmall(bw: Width)
    ensures Capacity(bw) >= 0x100
  {
  }

  // ---------- Vectors denote sequences ----------

  lemma StoredElementDenotes(b: bytes, c: bytes, pos: nat, bw: Width, vals: seq<Value>, i: nat, t: Tree)
    requires i < |vals| && b <= c && Holds(b, vals[i], t)
    requires ElementAt(c, pos, bw, vals, i) && TypeAt(c, pos, bw, vals, i)
    ensures DenotesElement(c, pos, ByteWidth(bw), |vals|, i, t)
  {
    hide Load, Fits, Unsigned, StoredPackedType, Packed, Holds, Denotes;
    SlotDenotes(b, c, vals[i], t, pos + i * ByteWidth(bw), bw);
  }

  lemma HoldsPlaced(b: bytes, v: Value, t: Tree)
    requires Holds(b, v, t)
    ensures Placed(b, v)
  {
  }

  ghost predicate AllHold(b: bytes, vals: seq<Value>, ts: seq<Tree>) {
    |vals| == |ts| && forall i :: 0 <= i < |vals| ==> Holds(b, vals[i], ts[i])
  }

  lemma VectorDenotes(b: bytes, minWidth: Width, vals: seq<Value>, ts: seq<Tree>)
    requires |b| < FLEX_LIMIT && |vals| < FLEX_LIMIT && AllHold(b, vals, ts)
    ensures var (c, v) := CreateVector(b, minWidth, vals, 1, false, None);
            Holds(c, v, VectorT(ts)) && b <= c && |vals| <= |c|
  {
    hide Holds, ElementAt, TypeAt, SizeAt, DenotesElement, Placed;
    var (c, v) := CreateVector(b, minWidth, vals, 1, false, None);
    VectorPlace(b, minWidth, vals, 1, false, None);
    SizeStored(b, minWidth, vals, 1, false, None);
    forall i | 0 <= i < |vals| ensures DenotesElement(c, v.u, ByteWidth(v.minWidth), |vals|, i, ts[i]) {
      HoldsPlaced(b, vals[i], ts[i]);
      ElementStored(b, minWidth, vals, 1, false, None, i);
      TypeStored(b, minWidth, vals, 1, None, i);
      StoredElementDenotes(b, c, v.u, v.minWidth, vals, i, ts[i]);
    }
    HoldsAt(c, v, VectorT(ts));
  }

  lemma HoldsAt(b: bytes, v: Value, t: Tree)
    requires t.VectorT? || t.MapT?
    requires v.typ == OffsetType(t) && 0 <= v.u <= |b| && DenotesAt(b, v.u, ByteWidth(v.minWidth), t)
    ensures Holds(b, v, t)
  {
  }

  // ---------- Maps denote sorted entries ----------

  ghost predicate AllHoldKeys(b: bytes, vals: seq<Value>, es: seq<Entry>) {
    |vals| == |es| && forall i :: 0 <= i < |vals| ==> HoldsKey(b, vals[i], es[i].key)
  }

  lemma HoldsKeyPlaced(b: bytes, v: Value, key: bytes)
    requires HoldsKey(b, v, key)
    ensures Placed(b, v) && !IsInline(v.typ)
  {
  }

  lemma StoredKeyReads(b: bytes, c: bytes, pos: nat, bw: Width, vals: seq<Value>, i: nat, key: bytes)
    requires i < |vals| && b <= c && HoldsKey(b, vals[i], key) && ElementAt(c, pos, bw, vals, i)
    ensures KeyAt(c, pos, ByteWidth(bw), i, key)
  {
    hide Load, Unsigned, Fits, Target, CString;
    HoldsKeyPlaced(b, vals[i], key);
    TargetOfSlot(c, vals[i], pos + i * ByteWidth(bw), bw, TypedElement(pos, ByteWidth(bw), i, FBT_KEY));
    CStringGrows(b, c, vals[i].u);
  }

  /** The vector of keys holds them all in order. */
  lemma KeyVector(b: bytes, minWidth: Width, vals: seq<Value>, es: seq<Entry>)
    requires |b| < FLEX_LIMIT && |vals| < FLEX_LIMIT && AllHoldKeys(b, vals, es)
    ensures var (c, v) := CreateVector(b, minWidth, vals, 2, true, None);
            && b <= c && 0 <= v.u <= |c| && v.typ == FBT_VECTOR_KEY
            && SizeAt(c, v.u, ByteWidth(v.minWidth)) == Ok(|es|)
            && forall i :: 0 <= i < |es| ==> KeyAt(c, v.u, ByteWidth(v.minWidth), i, es[i].key)
  {
    hide HoldsKey, ElementAt, SizeAt, KeyAt, Placed, IsInline;
    var (c, v) := CreateVector(b, minWidth, vals, 2, true, None);
    VectorPlace(b, minWidth, vals, 2, true, None);
    SizeStored(b, minWidth, vals, 2, true, None);
    forall i | 0 <= i < |vals| ensures KeyAt(c, v.u, ByteWidth(v.minWidth), i, es[i].key) {
      HoldsKeyPlaced(b, vals[i], es[i].key);
      ElementStored(b, minWidth, vals, 2, true, None, i);
      StoredKeyReads(b, c, v.u, v.minWidth, vals, i, es[i].key);
    }
    if vals != [] { assert vals[0].typ == FBT_KEY by { KeyTyped(b, vals[0], es[0].key); } }
  }

  lemma KeyTyped(b: bytes, v: Value, key: bytes)
    requires HoldsKey(b, v, key)
    ensures v.typ == FBT_KEY
  {
  }

  lemma AllHoldGrows(b: bytes, c: bytes, vals: seq<Value>, ts: seq<Tree>)
    requires b <= c && AllHold(b, vals, ts)
    ensures AllHold(c, vals, ts)
  {
    hide Holds;
    forall i | 0 <= i < |vals| ensures Holds(c, vals[i], ts[i]) { HoldsGrows(b, c, vals[i], ts[i]); }
  }

  lemma MapGrows(b: bytes, minWidth: Width, names: seq<Value>, vals: seq<Value>)
    ensures var (c, k) := CreateVector(b, minWidth, names, 2, true, None);
            var d := CreateMap(b, minWidth, names, vals).0;
            b <= c && c <= d && b <= d && |names| <= |d| && |vals| <= |d|
  {
    hide CreateVector, LayoutWidth, WriteHeader;
    VectorPlace(b, minWidth, names, 2, true, None);
    var (c, k) := CreateVector(b, minWidth, names, 2, true, None);
    VectorPlace(c, minWidth, vals, 2, false, Some(k));
  }

  /** Keys in `b`, their vector and the values in `c`: the second vector denotes the map of them. */
  lemma MapDenotes(b: bytes, minWidth: Width, names: seq<Value>, vals: seq<Value>, es: seq<Entry>)
    requires |names| < FLEX_LIMIT && AllHoldKeys(b, names, es) && AllHold(b, vals, Values(es))
    requires |CreateMap(b, minWidth, names, vals).0| < FLEX_LIMIT
    ensures var (d, v) := CreateMap(b, minWidth, names, vals);
            Holds(d, v, MapT(es)) && b <= d
  {
    MapGrows(b, minWidth, names, vals);
    assert |names| == |es| && |vals| == |es|;
    hide AllHoldKeys, CreateVector, SizeAt, KeyAt, DenotesElement, Keys, AllHold, Holds, DenotesAt;
    KeyVector(b, minWidth, names, es);
    var (c, k) := CreateVector(b, minWidth, names, 2, true, None);
    AllHoldGrows(b, c, vals, Values(es));
    MapValues(c, minWidth, vals, es, k);
    var (d, v) := CreateMap(b, minWidth, names, vals);
    KeysLater(c, d, k, es);
    MapParts(d, v, k, es);
    HoldsAt(d, v, MapT(es));
  }

  /** The keys stay readable behind whatever is appended. */
  lemma KeysLater(c: bytes, d: bytes, k: Value, es: seq<Entry>)
    requires c <= d && SizeAt(c, k.u, ByteWidth(k.minWidth)) == Ok(|es|)
    requires forall i :: 0 <= i < |es| ==> KeyAt(c, k.u, ByteWidth(k.minWidth), i, es[i].key)
    ensures SizeAt(d, k.u, ByteWidth(k.minWidth)) == Ok(|es|)
    ensures forall i :: 0 <= i < |es| ==> KeyAt(d, k.u, ByteWidth(k.minWidth), i, es[i].key)
  {
    hide KeyAt, SizeAt;
    SizeGrows(c, d, k.u, ByteWidth(k.minWidth));
    forall i | 0 <= i < |es| ensures KeyAt(d, k.u, ByteWidth(k.minWidth), i, es[i].key) {
      KeyGrows(c, d, k.u, ByteWidth(k.minWidth), i, es[i].key);
    }
  }

  lemma MapParts(d: bytes, v: Value, k: Value, es: seq<Entry>)
    requires var w := ByteWidth(v.minWidth);
             && SizeAt(d, v.u, w) == Ok(|es|)
             && Keys(d, v.u, w) == Ok((k.u, ByteWidth(k.minWidth)))
             && SizeAt(d, k.u, ByteWidth(k.minWidth)) == Ok(|es|)
             && (forall i :: 0 <= i < |es| ==> KeyAt(d, k.u, ByteWidth(k.minWidth), i, es[i].key))
             && (forall i :: 0 <= i < |es| ==> DenotesElement(d, v.u, w, |es|, i, es[i].value))
    ensures DenotesAt(d, v.u, ByteWidth(v.minWidth), MapT(es))
  {
    hide SizeAt, KeyAt, DenotesElement, Keys, ByteWidth;
  }

  lemma KeyPlaced(c: bytes, k: Value)
    requires 0 <= k.u <= |c| && k.typ == FBT_VECTOR_KEY
    ensures KeysPlaced(c, Some(k)) && !IsInline(k.typ)
  {
  }

  /** The vector of values, with the prefix that leads to the keys. */
  lemma MapValues(c: bytes, minWidth: Width, vals: seq<Value>, es: seq<Entry>, k: Value)
    requires |c| < FLEX_LIMIT && |vals| < FLEX_LIMIT && AllHold(c, vals, Values(es))
    requires 0 <= k.u <= |c| && k.typ == FBT_VECTOR_KEY
    ensures var (d, v) := CreateVector(c, minWidth, vals, 2, false, Some(k));
            var w := ByteWidth(v.minWidth);
            && c <= d && 0 <= v.u <= |d| && |vals| <= |d| && v.typ == FBT_MAP
            && SizeAt(d, v.u, w) == Ok(|es|)
            && Keys(d, v.u, w) == Ok((k.u, ByteWidth(k.minWidth)))
            && forall i :: 0 <= i < |es| ==> DenotesElement(d, v.u, w, |es|, i, es[i].value)
  {
    hide Holds, ElementAt, TypeAt, SizeAt, DenotesElement, Keys, LayoutWidth, WriteHeader, WriteElements, WriteTypes,
         SlotPosition, Placed;
    assert !IsInline(k.typ) && KeysPlaced(c, Some(k)) by { KeyPlaced(c, k); }
    var (d, v) := CreateVector(c, minWidth, vals, 2, false, Some(k));
    assert v.typ == FBT_MAP;
    hide CreateVector, IsInline, KeysPlaced;
    VectorPlace(c, minWidth, vals, 2, false, Some(k));
    SizeStored(c, minWidth, vals, 2, false, Some(k));
    KeysStored(c, minWidth, vals, 2, false, k);
    forall i | 0 <= i < |vals| ensures DenotesElement(d, v.u, ByteWidth(v.minWidth), |es|, i, es[i].value) {
      HoldsPlaced(c, vals[i], es[i].value);
      ElementStored(c, minWidth, vals, 2, false, Some(k), i);
      TypeStored(c, minWidth, vals, 2, Some(k), i);
      StoredElementDenotes(c, d, v.u, v.minWidth, vals, i, es[i].value);
    }
  }
}
