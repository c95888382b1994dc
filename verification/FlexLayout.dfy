/**
 What the FlexBuffers builder leaves in the buffer besides what is read back: no wider than
 need be, aligned, without a byte too many, and each shared key and string once.
 */
module FlexLayout {
  import opened Bits
  import opened Bytes
  import opened Wrappers
  import opened FlexWidths
  import opened FlexReader
  import opened FlexModel
  import opened FlexVectors
  import opened FlexEmit
  import opened FlexRoundTrip

  // ---------- The least width ----------

  /** Element `index` of a vector behind a buffer of this size fits slots of this width, for all that is known of it. */
  predicate Suits(v: Value, size: nat, index: nat, bw: Width) {
    if IsInline(v.typ) then v.minWidth <= bw else Relative(size, index, v.u, bw) < Capacity(bw)
  }

  lemma ElemWidthLeast(v: Value, size: nat, index: nat, bw: Width)
    requires PlacedBelow(size, v) && size < SIZE_LIMIT && index < SIZE_LIMIT
    ensures ElemWidth(v, size, index) <= bw <==> Suits(v, size, index, bw)
  {
    hide Relative, Capacity;
    if !IsInline(v.typ) {
      var r := OffsetWidth(size, index, v.u, 0);
      OffsetWidthLeast(size, index, v.u, 0);
      if r <= bw { WiderStillFits(size, index, index, v.u, r, bw); }
    }
  }

  lemma SizeWidthLeast(n: nat, bw: Width)
    requires n < WORD
    ensures SizeWidth(n) <= bw <==> n < Capacity(bw)
  {
    ModUnique(n, WORD, 0, n);
    WidthULeast(n, bw);
  }

  lemma WidthULeast(n: nat, bw: Width)
    requires n < WORD
    ensures WidthU(n) <= bw <==> n < Capacity(bw)
  {
    if WidthU(n) <= bw { CapacityGrows(WidthU(n), bw); }
    if bw < WidthU(n) { CapacityGrows(bw, WidthU(n) - 1); }
  }

  lemma {:induction false} VectorWidthLeast(
    least: Width, size: nat, vals: seq<Value>, step: nat, prefix: nat, bw: Width)
    ensures VectorWidth(least, size, vals, step, prefix) <= bw <==>
            && least <= bw
            && forall i :: 0 <= i < |vals| ==> ElemWidth(vals[i], size, i * step + prefix) <= bw
    decreases |vals|
  {
    hide ElemWidth;
    if vals != [] {
      var n := |vals| - 1;
      VectorWidthLeast(least, size, vals[..n], step, prefix, bw);
      assert forall i :: 0 <= i < n ==> vals[..n][i] == vals[i];
    }
  }

  /**
   A width will do for a vector: it is not below the forced one, the number of elements
   fits, and so does every element, and the reference to the keys of a map, where it is
   estimated to lie.
   */
  predicate WillDo(b: bytes, minWidth: Width, vals: seq<Value>, step: nat, keys: Option<Value>, bw: Width) {
    && minWidth <= bw && |vals| < Capacity(bw)
    && (keys.Some? ==> Suits(keys.value, |b|, 0, bw))
    && forall i :: 0 <= i < |vals| ==> Suits(vals[i], |b|, i * step + PrefixSlots(keys), bw)
  }

  /** The width of a vector is the least that will do. */
  lemma VectorWidthIsLeast(
    b: bytes, minWidth: Width, vals: seq<Value>, step: nat, typed: bool, keys: Option<Value>, bw: Width)
    requires |b| < FLEX_LIMIT && |vals| < FLEX_LIMIT && 1 <= step <= 2 && AllPlaced(b, vals) && KeysPlaced(b, keys)
    ensures var v := CreateVector(b, minWidth, vals, step, typed, keys).1;
            v.minWidth <= bw <==> WillDo(b, minWidth, vals, step, keys, bw)
  {
    hide VectorWidth, ElemWidth, SizeWidth, Suits, Capacity, WriteHeader, WriteElements, WriteTypes;
    var start := MaxWidth(minWidth, SizeWidth(|vals|));
    var first := if keys.Some? then MaxWidth(start, ElemWidth(keys.value, |b|, 0)) else start;
    var prefix := PrefixSlots(keys);
    VectorWidthLeast(first, |b|, vals, step, prefix, bw);
    SizeWidthLeast(|vals|, bw);
    if keys.Some? { ElemWidthLeast(keys.value, |b|, 0, bw); }
    forall i | 0 <= i < |vals|
      ensures ElemWidth(vals[i], |b|, i * step + prefix) <= bw <==> Suits(vals[i], |b|, i * step + prefix, bw)
    {
      assert Placed(b, vals[i]);
      IndexSmall(i, step, prefix, |vals|);
      ElemWidthLeast(vals[i], |b|, i * step + prefix, bw);
    }
  }

  /** EndVector: each element is counted one slot behind the one before, the first behind the size. */
  lemma EndedVectorWidth(st: Builder, start: nat, bw: Width)
    requires start <= |st.stack| < FLEX_LIMIT && |st.buf| < FLEX_LIMIT && AllPlaced(st.buf, st.stack)
    ensures EndVector(st, start).stack[start].minWidth <= bw <==>
            WillDo(st.buf, st.minWidth, st.stack[start..], 1, None, bw)
  {
    hide CreateVector, Placed, WillDo;
    VectorWidthIsLeast(st.buf, st.minWidth, st.stack[start..], 1, false, None, bw);
  }

  /**
   A map's vector of keys and its vector of values are each as narrow as will do, where
   both estimates count two slots for each element, as keys and values lie on the stack. The
   map's prefix leads to its keys and names their width.
   */
  lemma MapWidths(b: bytes, minWidth: Width, names: seq<Value>, vals: seq<Value>, bw: Width)
    requires |b| < FLEX_LIMIT && |names| < FLEX_LIMIT && |vals| < FLEX_LIMIT
    requires AllPlaced(b, names) && AllPlaced(b, vals) && (names != [] ==> names[0].typ == FBT_KEY)
    requires |CreateVector(b, minWidth, names, 2, true, None).0| < FLEX_LIMIT
    ensures var (c, k) := CreateVector(b, minWidth, names, 2, true, None);
            var (d, v) := CreateMap(b, minWidth, names, vals);
            && (k.minWidth <= bw <==> WillDo(b, minWidth, names, 2, None, bw))
            && (v.minWidth <= bw <==> WillDo(c, minWidth, vals, 2, Some(k), bw))
            && Keys(d, v.u, ByteWidth(v.minWidth)) == Ok((k.u, ByteWidth(k.minWidth)))
  {
    hide CreateVector, Placed, WillDo, Keys;
    VectorWidthIsLeast(b, minWidth, names, 2, true, None, bw);
    KeysCreated(b, minWidth, names);
    var (c, k) := CreateVector(b, minWidth, names, 2, true, None);
    KeyPlaced(c, k);
    PlacedLater(b, c, vals);
    VectorWidthIsLeast(c, minWidth, vals, 2, false, Some(k), bw);
    KeysStored(c, minWidth, vals, 2, false, k);
  }

  /** Keys and values of a finished map, each in the order of the keys, have those widths. */
  lemma EndedMapWidths(st: Builder, start: nat, bw: Width)
    requires InPairs(st.stack, start) && |st.stack| < FLEX_LIMIT && |EndMap(st, start).buf| < FLEX_LIMIT
    requires AllPlaced(st.buf, st.stack)
    requires forall k: nat :: start + 2 * k < |st.stack| ==> st.stack[start + 2 * k].typ == FBT_KEY
    ensures var r, order := EndMap(st, start), SortOrder(StackNames(st, start), (|st.stack| - start) / 2);
            var names, vals := Pick(st.stack, start, 0, order), Pick(st.stack, start, 1, order);
            var (c, k) := CreateVector(st.buf, st.minWidth, names, 2, true, None);
            var v := r.stack[start];
            && (k.minWidth <= bw <==> WillDo(st.buf, st.minWidth, names, 2, None, bw))
            && (v.minWidth <= bw <==> WillDo(c, st.minWidth, vals, 2, Some(k), bw))
            && Keys(r.buf, v.u, ByteWidth(v.minWidth)) == Ok((k.u, ByteWidth(k.minWidth)))
  {
    hide CreateVector, CreateMap, SortOrder, WillDo, Keys, Placed, CString;
    var order := SortOrder(StackNames(st, start), (|st.stack| - start) / 2);
    var names, vals := Pick(st.stack, start, 0, order), Pick(st.stack, start, 1, order);
    MapGrows(st.buf, st.minWidth, names, vals);
    PickedPlaced(st, start, 0, order);
    PickedPlaced(st, start, 1, order);
    MapWidths(st.buf, st.minWidth, names, vals, bw);
  }

  lemma PickedPlaced(st: Builder, start: nat, offset: nat, order: seq<nat>)
    requires offset < 2 && forall i :: 0 <= i < |order| ==> start + 2 * order[i] + offset < |st.stack|
    requires AllPlaced(st.buf, st.stack)
    ensures AllPlaced(st.buf, Pick(st.stack, start, offset, order))
  {
  }

  /**
   The keys of a map lie one slot apart, not two, so their vector may be wider than it need
   be: it has the least width that would do exactly if each key also suits that width two
   slots for each key in front of it further on.
   */
  lemma KeyWidthLeast(b: bytes, minWidth: Width, names: seq<Value>, bw: Width)
    requires |b| < FLEX_LIMIT && |names| < FLEX_LIMIT && AllPlaced(b, names)
    requires WillDo(b, minWidth, names, 1, None, bw) && (bw > 0 ==> !WillDo(b, minWidth, names, 1, None, bw - 1))
    ensures var k := CreateVector(b, minWidth, names, 2, true, None).1;
            && bw <= k.minWidth
            && (k.minWidth == bw <==> forall i :: 0 <= i < |names| ==> Suits(names[i], |b|, i * 2 + 1, bw))
  {
    hide CreateVector, Placed, Suits, Capacity;
    VectorWidthIsLeast(b, minWidth, names, 2, true, None, bw);
    if bw > 0 {
      VectorWidthIsLeast(b, minWidth, names, 2, true, None, bw - 1);
      if WillDo(b, minWidth, names, 2, None, bw - 1) {
        forall i | 0 <= i < |names| ensures Suits(names[i], |b|, i * 1 + 1, bw - 1) {
          NearerSuits(names[i], |b|, i + 1, i * 2 + 1, bw - 1);
        }
        assert false;
      }
    }
  }

  lemma NearerSuits(v: Value, size: nat, index: nat, estimate: nat, bw: Width)
    requires index <= estimate && Suits(v, size, estimate, bw)
    ensures Suits(v, size, index, bw)
  {
    MulGrowsLeft(index, estimate, ByteWidth(bw));
  }

  /** Behind 250 bytes, four keys, the last in order written first, take two bytes each where one would do. */
  lemma KeysWiderThanNeeded(b: bytes)
    requires |b| == 250
    ensures var names := [Value(20, FBT_KEY, 0), Value(40, FBT_KEY, 0), Value(60, FBT_KEY, 0), Value(0, FBT_KEY, 0)];
            && WillDo(b, 0, names, 1, None, 0)
            && CreateVector(b, 0, names, 2, true, None).1.minWidth == 1
  {
    hide CreateVector, Padding;
    var names := [Value(20, FBT_KEY, 0), Value(40, FBT_KEY, 0), Value(60, FBT_KEY, 0), Value(0, FBT_KEY, 0)];
    RemIsMod(250, 1);
    RemIsMod(250, 2);
    PaddingUnique(250, 1, 0);
    PaddingUnique(250, 2, 0);
    assert !Suits(names[3], 250, 3 * 2 + 1, 0);
    VectorWidthIsLeast(b, 0, names, 2, true, None, 0);
    VectorWidthIsLeast(b, 0, names, 2, true, None, 1);
  }

  lemma KeysCreated(b: bytes, minWidth: Width, names: seq<Value>)
    requires names != [] ==> names[0].typ == FBT_KEY
    ensures var (c, k) := CreateVector(b, minWidth, names, 2, true, None);
            b <= c && 0 <= k.u <= |c| && k.typ == FBT_VECTOR_KEY
  {
    hide LayoutWidth, WriteHeader;
    VectorPlace(b, minWidth, names, 2, true, None);
  }

  lemma PlacedLater(b: bytes, c: bytes, vals: seq<Value>)
    requires |b| <= |c| && AllPlaced(b, vals)
    ensures AllPlaced(c, vals)
  {
  }

  lemma IndexSmall(i: nat, step: nat, prefix: nat, n: nat)
    requires i < n < FLEX_LIMIT && 1 <= step <= 2 && prefix <= 3
    ensures i * step + prefix < SIZE_LIMIT
  {
    assert step == 1 || step == 2;
  }

  /** A signed integer claims the least width that keeps it under sign extension. */
  lemma IntExact(st: Builder, i: int, bw: Width)
    requires IsInt64(i)
    ensures var v := Int(st, i).stack[|st.stack|];
            && v.u == i && v.typ == FBT_INT
            && (v.minWidth <= bw <==> 0 <= 2 * i + Capacity(bw) && 2 * i < Capacity(bw))
  {
    if WidthI(i) <= bw { CapacityGrows(WidthI(i), bw); }
    if bw < WidthI(i) { CapacityGrows(bw, WidthI(i) - 1); }
  }

  /** An unsigned integer claims the least width it fits. */
  lemma UIntExact(st: Builder, u: nat, bw: Width)
    requires u < WORD
    ensures var v := UInt(st, u).stack[|st.stack|];
            && v.u == u && v.typ == FBT_UINT && (v.minWidth <= bw <==> u < Capacity(bw))
  {
    WidthULeast(u, bw);
  }

  /** Null and a boolean claim one byte, as the numbers they are stored as would. */
  lemma BoolExact(st: Builder, x: bool)
    ensures var n, u := |st.stack|, if x then 1 else 0;
            && Bool(st, x).stack[n] == UInt(st, u).stack[n].(typ := FBT_BOOL)
            && Null(st).stack[n] == UInt(st, 0).stack[n].(typ := FBT_NULL)
            && Bool(st, x).stack[n].minWidth == Null(st).stack[n].minWidth == 0
  {
    var u := if x then 1 else 0;
    WidthULeast(u, 0);
    WidthULeast(0, 0);
  }

  // ---------- Exactly these bytes ----------

  lemma {:induction false} ElementsSize(b: bytes, vals: seq<Value>, w: nat)
    ensures |WriteElements(b, vals, w)| == |b| + |vals| * w
    decreases |vals|
  {
    ElementsGrow(b, vals, w);
  }

  /**
   A vector begins at the next multiple of its width that leaves room for its prefix, behind
   zeros, and is as long as its slots and, when untyped, one type byte each.
   */
  lemma VectorExact(b: bytes, minWidth: Width, vals: seq<Value>, step: nat, typed: bool, keys: Option<Value>)
    ensures var (c, v) := CreateVector(b, minWidth, vals, step, typed, keys);
            var w := ByteWidth(v.minWidth);
            && b + Zeros(Padding(|b|, w)) <= c && v.u >= 0 && Aligned(v.u, w)
            && v.u == |b| + Padding(|b|, w) + PrefixSlots(keys) * w
            && |c| == v.u + |vals| * w + (if typed then 0 else |vals|)
  {
    hide LayoutWidth, WriteHeader, WriteElements, WriteTypes, Padding, Aligned;
    var bw := LayoutWidth(b, minWidth, vals, step, keys);
    var w := ByteWidth(bw);
    var header := WriteHeader(b, keys, |vals|, w);
    HeaderEnds(b, keys, |vals|, bw);
    HeaderPads(b, keys, |vals|, w);
    ElementsGrow(header, vals, w);
    ElementsSize(header, vals, w);
    TypesGrow(WriteElements(header, vals, w), vals, bw);
    SlotsAligned(|b| + Padding(|b|, w), w, PrefixSlots(keys));
  }

  lemma HeaderPads(b: bytes, keys: Option<Value>, n: nat, w: nat)
    requires w > 0
    ensures b + Zeros(Padding(|b|, w)) <= WriteHeader(b, keys, n, w)
  {
    hide Padding, ToLE, Unsigned;
  }

  lemma {:induction false} SlotsAligned(n: nat, w: nat, k: nat)
    requires w > 0 && Aligned(n, w)
    ensures Aligned(n + k * w, w)
    decreases k
  {
    if k > 0 {
      SlotsAligned(n, w, k - 1);
      assert n + k * w == w + (n + (k - 1) * w);
      RemAdd(w, n + (k - 1) * w, w);
    }
  }

  /** Padding, the size in the fewest bytes, the data, and nothing else. */
  function SizedData(b: bytes, s: bytes): bytes
    requires |s| < WORD
  {
    var w := ByteWidth(WidthU(|s|));
    b + Zeros(Padding(|b|, w)) + ToLE(|s|, w) + s
  }

  lemma BlobBytes(b: bytes, s: bytes, trailing: nat, typ: nat)
    requires |s| < WORD
    ensures var (c, v) := CreateBlob(b, s, trailing, typ);
            && c == SizedData(b, s) + Zeros(trailing)
            && v == Value(|SizedData(b, s)| - |s|, typ, WidthU(|s|))
  {
    hide WidthU, ToLE, Padding;
    ModUnique(|s|, WORD, 0, |s|);
    UIntFits(|s|, WidthU(|s|));
  }

  /** A blob is its data without a terminator. */
  lemma BlobExact(st: Builder, s: bytes)
    requires |s| < WORD
    ensures Blob(st, s).buf == SizedData(st.buf, s)
  {
    hide CreateBlob, SizedData;
    BlobBytes(st.buf, s, 0, FBT_BLOB);
    assert SizedData(st.buf, s) + Zeros(0) == SizedData(st.buf, s);
  }

  /** Some pooled string has these characters. */
  predicate PoolHasString(st: Builder, s: bytes) {
    exists i :: 0 <= i < |st.stringPool| && StringIs(st.buf, st.stringPool[i], s)
  }

  predicate StringIs(b: bytes, x: (nat, nat), s: bytes) {
    x.0 + x.1 <= |b| && b[x.0..x.0 + x.1] == s
  }

  /**
   A string takes its size, its characters and one zero byte; with sharing on, exactly the
   first of several equal strings does, and the others refer to it.
   */
  lemma StringExact(st: Builder, s: bytes)
    requires PoolsOk(st) && |s| < WORD
    ensures var r := String(st, s);
            var shared := st.shareStrings && PoolHasString(st, s);
            var v := r.stack[|st.stack|];
            && r.buf == (if shared then st.buf else SizedData(st.buf, s) + [0])
            && v.u >= 0 && v.typ == FBT_STRING && v.minWidth == WidthU(|s|)
            && r.stringPool == st.stringPool + (if st.shareStrings && !shared then [(v.u as nat, |s|)] else [])
            && (if shared then (v.u as nat, |s|) in st.stringPool && StringIs(st.buf, (v.u as nat, |s|), s)
                else v.u == |SizedData(st.buf, s)| - |s|)
  {
    hide CreateBlob, SizedData, FindString, StringIs, PoolHasString, PoolsOk, WidthU;
    BlobBytes(st.buf, s, 1, FBT_STRING);
    StringLookup(st, s);
    assert Zeros(1) == [0];
  }

  /** The search for the string just written finds a pooled one exactly if there is one. */
  lemma StringLookup(st: Builder, s: bytes)
    requires PoolsOk(st) && |s| < WORD
    ensures var (b, v) := CreateBlob(st.buf, s, 1, FBT_STRING);
            && v.u >= 0
            && var found := FindString(b, st.stringPool, (v.u as nat, |s|));
            && (found.Some? <==> PoolHasString(st, s))
            && (found.Some? ==>
                  (found.value, |s|) in st.stringPool && StringIs(st.buf, (found.value, |s|), s))
  {
    hide CreateBlob, FindString, StringAt, StringIs, WidthU, KeysOk, PoolHasString;
    BlobStored(st.buf, s, 1, FBT_STRING);
    var (b, v) := CreateBlob(st.buf, s, 1, FBT_STRING);
    NewStringAt(b, v, s);
    StringsOkGrow(st.buf, b, st.stringPool);
    FindStringFinds(b, st.stringPool, (v.u as nat, |s|));
    PoolLookup(st, b, s, v.u, FindString(b, st.stringPool, (v.u as nat, |s|)));
  }

  /** What the search finds in the longer buffer is in the pool of the shorter one. */
  lemma PoolLookup(st: Builder, b: bytes, s: bytes, p: nat, found: Option<nat>)
    requires PoolsOk(st) && st.buf <= b && p + |s| <= |b| && b[p..p + |s|] == s
    requires found.Some? ==>
               (found.value, |s|) in st.stringPool && found.value + |s| <= |b| && b[found.value..found.value + |s|] == s
    requires StringsOk(b, st.stringPool)
    requires found.None? ==> forall i :: 0 <= i < |st.stringPool| ==>
               b[st.stringPool[i].0..st.stringPool[i].0 + st.stringPool[i].1] != s
    ensures found.Some? <==> PoolHasString(st, s)
    ensures found.Some? ==> StringIs(st.buf, (found.value, |s|), s)
  {
    hide SizedBytes, WidthU, KeysOk;
    forall i | 0 <= i < |st.stringPool|
      ensures StringIs(st.buf, st.stringPool[i], s) <==>
              b[st.stringPool[i].0..st.stringPool[i].0 + st.stringPool[i].1] == s
    {
      var x := st.stringPool[i];
      assert StringAt(st.buf, x);
      StringAtGrows(st.buf, b, x);
    }
    if found.Some? {
      var i :| 0 <= i < |st.stringPool| && st.stringPool[i] == (found.value, |s|);
      assert StringIs(st.buf, st.stringPool[i], s);
    }
  }

  /** Some pooled key has these characters. */
  predicate PoolHasKey(st: Builder, s: bytes) {
    exists i :: 0 <= i < |st.keyPool| && CString(st.buf, st.keyPool[i]) == Ok(s)
  }

  /** A key takes its characters and a zero byte; with sharing on, exactly the first of several equal keys does. */
  lemma KeyExact(st: Builder, s: bytes)
    requires PoolsOk(st) && NoZero(s)
    ensures var r := Key(st, s);
            var shared := st.shareKeys && PoolHasKey(st, s);
            var v := r.stack[|st.stack|];
            && r.buf == (if shared then st.buf else st.buf + s + [0])
            && v.u >= 0 && v.typ == FBT_KEY && v.minWidth == 0
            && r.keyPool == (if st.shareKeys && !shared then st.keyPool + [v.u as nat] else st.keyPool)
            && (if shared then v.u as nat in st.keyPool && CString(st.buf, v.u) == Ok(s) else v.u == |st.buf|)
  {
    hide CString, FindKey, StringsOk;
    var b := st.buf + s + [0];
    CStringWritten(st.buf, s, 0);
    assert s[0..] == s;
    KeysOkGrow(st.buf, b, st.keyPool);
    FindKeyFinds(b, st.keyPool, |st.buf|);
    forall i | 0 <= i < |st.keyPool|
      ensures CString(st.buf, st.keyPool[i]) == CString(b, st.keyPool[i])
    {
      KeyStays(st.buf, b, st.keyPool, i);
    }
    var found := FindKey(b, st.keyPool, |st.buf|);
    if found.Some? {
      var i :| 0 <= i < |st.keyPool| && st.keyPool[i] == found.value;
      assert CString(st.buf, st.keyPool[i]) == Ok(s);
    }
  }

  lemma KeyStays(b: bytes, c: bytes, pool: seq<nat>, i: nat)
    requires b <= c && KeysOk(b, pool) && i < |pool|
    ensures CString(b, pool[i]) == CString(c, pool[i])
  {
    hide CString;
    CStringGrows(b, c, pool[i]);
  }

  // ---------- Types and the root ----------

  /** The type of an inline element names the width of the slot it lies in. */
  lemma InlineTypeNamesSlot(v: Value, p: nat, bw: Width)
    requires IsInline(v.typ) && v.minWidth <= bw
    ensures SlotReference(v, p, bw).byteWidth == SlotReference(v, p, bw).parentWidth == ByteWidth(bw)
  {
    SlotReferenceIs(v, p, bw);
  }

  /**
   The root lies aligned in the least width that suits it, behind what the buffer holds and
   zeros, and is followed by its type and that width.
   */
  lemma RootExact(st: Builder, bw: Width)
    requires |st.stack| == 1 && |st.buf| < FLEX_LIMIT && Placed(st.buf, st.stack[0])
    ensures var f := Finish(st);
            var n := |f| - 2;
            && n >= 0
            && exists rw: Width ::
                 && st.buf + Zeros(Padding(|st.buf|, ByteWidth(rw))) <= f
                 && f[n + 1] == ByteWidth(rw) && n == |st.buf| + Padding(|st.buf|, ByteWidth(rw)) + ByteWidth(rw)
                 && f[n] == StoredPackedType(st.stack[0], 0)
                 && (rw <= bw <==> Suits(st.stack[0], |st.buf|, 0, bw))
  {
    hide ElemWidth, Suits, StoredPackedType, Padding, ToLE, Unsigned;
    var root := st.stack[0];
    var rw := ElemWidth(root, |st.buf|, 0);
    ElemWidthLeast(root, |st.buf|, 0, bw);
    WriteAnyLoads(Align(st.buf, ByteWidth(rw)), root, ByteWidth(rw));
    assert |Align(st.buf, ByteWidth(rw))| == |st.buf| + Padding(|st.buf|, ByteWidth(rw));
  }
}
