/**
 The FlexBuffers Builder as it runs (flexbuffers.h): a byte buffer and a value stack that its
 methods change in place. Every method is tied to the function of the same name in
 FlexModel, and the assertions of ElemWidth and WriteOffset are shown never to fail.
 */
module FlexBuilder {
  import opened Bits
  import opened Bytes
  import opened Wrappers
  import opened FlexWidths
  import opened FlexReader
  import M = FlexModel
  import opened FlexVectors
  import opened FlexOrder
  import opened FlexRoundTrip
  import opened StringOrder

  type Value = M.Value

  /** Tries each width in turn; one always matches. */
  method ElemWidth(v: Value, size: nat, index: nat) returns (bw: Width)
    requires PlacedBelow(size, v) && size < SIZE_LIMIT && index < SIZE_LIMIT
    ensures bw == M.ElemWidth(v, size, index)
  {
    hide WidthU, Relative;
    if M.IsInline(v.typ) { return v.minWidth; }
    OffsetWidthLeast(size, index, v.u, 0);
    bw := 0;
    while true
      invariant bw <= OffsetWidth(size, index, v.u, 0) == OffsetWidth(size, index, v.u, bw)
      decreases 3 - bw
    {
      RelativeBound(size, index, v.u, bw);
      var offset := Relative(size, index, v.u, bw);
      if WidthU(offset) == bw { return bw; }
      assert bw < 3;
      bw := bw + 1;
    }
  }

  /** Index of the k-th entry of a vector on the stack; keys and values of a map take turns. */
  function At(start: nat, step: nat, k: nat): (i: nat)
    requires 1 <= step <= 2
    ensures i == start + k * step
  {
    if step == 1 then start + k else start + k * 2
  }

  /** The n entries from `start` on in strides of `step` are all there are up to the top. */
  predicate Strides(stack: seq<Value>, start: nat, n: nat, step: nat) {
    1 <= step <= 2 && |stack| <= At(start, step, n) < |stack| + step
  }

  function Every(stack: seq<Value>, start: nat, n: nat, step: nat): (r: seq<Value>)
    requires Strides(stack, start, n, step)
    ensures |r| == n
  {
    seq(n, k requires 0 <= k < n => stack[At(start, step, k)])
  }

  predicate IsTypedElement(typ: nat) {
    FBT_INT <= typ <= FBT_STRING || typ == FBT_BOOL
  }

  function ToTypedVector(typ: nat): nat
    requires IsTypedElement(typ)
  {
    typ - FBT_INT + FBT_VECTOR_INT
  }

  /** The type a typed vector takes over from its elements; keys, when there are none. */
  function ElementType(vals: seq<Value>): nat {
    if vals == [] then FBT_KEY else vals[0].typ
  }

  class Builder {
    var buf: bytes
    var stack: seq<Value>
    var keyPool: seq<nat>
    var stringPool: seq<(nat, nat)>
    const shareKeys: bool
    const shareStrings: bool
    var minWidth: Width
    var finished: bool

    /** Everything on the stack refers to data in the buffer, keys to terminated strings. */
    ghost predicate Valid()
      reads this
    {
      && AllPlaced(buf, stack) && KeysReadable(buf, stack)
      && PoolReadable(buf, keyPool) && (forall x :: x in stringPool ==> x.0 <= |buf|)
    }

    ghost function Model(): M.Builder
      reads this
    {
      M.Builder(buf, stack, keyPool, stringPool, shareKeys, shareStrings, minWidth)
    }

    constructor (shareKeys: bool, shareStrings: bool, minWidth: Width)
      ensures Valid() && !finished && Model() == M.Empty(shareKeys, shareStrings, minWidth)
    {
      buf, stack, keyPool, stringPool := [], [], [], [];
      this.shareKeys, this.shareStrings, this.minWidth := shareKeys, shareStrings, minWidth;
      finished := false;
    }

    // ---------- Writing ----------

    method Align(bw: Width) returns (w: nat)
      requires |buf| < WORD
      modifies `buf
      ensures w == ByteWidth(bw) && buf == M.Align(old(buf), w)
    {
      w := ByteWidth(bw);
      buf := buf + Zeros(PaddingBytes(|buf|, w));
    }

    method Write(val: int, w: nat)
      modifies `buf
      ensures buf == M.Write(old(buf), val, w)
    {
      buf := buf + ToLE(Unsigned(val, w), w);
    }

    /** The offset to store fits the slot: the assertion of the source. */
    method WriteOffset(o: int, bw: Width)
      requires 0 <= |buf| - o < Capacity(bw)
      modifies `buf
      ensures buf == M.WriteOffset(old(buf), o, ByteWidth(bw))
    {
      Write(|buf| - o, ByteWidth(bw));
    }

    method WriteAny(v: Value, bw: Width)
      requires Fits(v, |buf|, bw)
      modifies `buf
      ensures buf == M.WriteAny(old(buf), v, ByteWidth(bw))
    {
      if M.IsInline(v.typ) { Write(v.u, ByteWidth(bw)); } else { WriteOffset(v.u, bw); }
    }

    // ---------- Scalars, keys, strings, blobs ----------

    method Null()
      requires Valid()
      modifies `stack
      ensures Valid() && Model() == M.Null(old(Model()))
    {
      stack := stack + [M.Value(0, FBT_NULL, 0)];
    }

    method Bool(x: bool)
      requires Valid()
      modifies `stack
      ensures Valid() && Model() == M.Bool(old(Model()), x)
    {
      stack := stack + [M.Value(if x then 1 else 0, FBT_BOOL, 0)];
    }

    method Int(i: int)
      requires Valid() && IsInt64(i)
      modifies `stack
      ensures Valid() && Model() == M.Int(old(Model()), i)
    {
      stack := stack + [M.Value(i, FBT_INT, WidthI(i))];
    }

    method UInt(u: nat)
      requires Valid() && u < WORD
      modifies `stack
      ensures Valid() && Model() == M.UInt(old(Model()), u)
    {
      stack := stack + [M.Value(u, FBT_UINT, WidthU(u))];
    }

    /** Serializes the key, and takes it back if the pool has an equal one. */
    method Key(s: bytes)
      requires Valid()
      modifies `buf, `stack, `keyPool
      ensures Valid() && Model() == M.Key(old(Model()), s)
    {
      hide CString;
      var loc := |buf|;
      buf := buf + s + [0];
      NewKeyReadable(old(buf), s, stack, keyPool);
      if shareKeys {
        var found := M.FindKey(buf, keyPool, loc);
        if found.Some? {
          FoundInPool(buf, keyPool, loc);
          buf := buf[..loc];
          loc := found.value;
        } else {
          keyPool := keyPool + [loc];
        }
      }
      stack := stack + [M.Value(loc, FBT_KEY, 0)];
    }

    method CreateBlob(s: bytes, trailing: nat, typ: nat)
      requires Valid() && |buf| < WORD && |s| < WORD && (typ == FBT_BLOB || typ == FBT_STRING)
      modifies `buf, `stack
      ensures Valid() && old(buf) <= buf
      ensures (buf, stack) == (M.CreateBlob(old(buf), s, trailing, typ).0,
                               old(stack) + [M.CreateBlob(old(buf), s, trailing, typ).1])
      ensures |old(buf)| <= stack[|stack| - 1].u <= |buf| && stack[|stack| - 1].typ == typ
    {
      hide M.CreateBlob, M.Align, M.Write, WidthU, PlacedBelow, AllPlaced, KeysReadable, PoolReadable;
      BlobParts(buf, s, trailing, typ);
      var bw := WidthU(|s|);
      var w := Align(bw);
      Write(|s|, w);
      var loc := |buf|;
      BlobPlaced(old(buf), buf, s, trailing, stack, M.Value(loc, typ, bw));
      buf := buf + s + Zeros(trailing);
      ReadableLater(old(buf), buf, stack, keyPool);
      PushReadable(buf, stack, M.Value(loc, typ, bw));
      stack := stack + [M.Value(loc, typ, bw)];
    }

    method Blob(s: bytes)
      requires Valid() && |buf| < WORD && |s| < WORD
      modifies `buf, `stack
      ensures Valid() && Model() == M.Blob(old(Model()), s)
    {
      CreateBlob(s, 0, FBT_BLOB);
    }

    /** Serializes the string, and takes it back if the pool has an equal one. */
    method String(s: bytes)
      requires Valid() && |buf| < WORD && |s| < WORD
      modifies `buf, `stack, `stringPool
      ensures Valid() && Model() == M.String(old(Model()), s)
    {
      hide M.CreateBlob, M.FindString, PlacedBelow, CString;
      var resetTo := |buf|;
      CreateBlob(s, 1, FBT_STRING);
      var n := |stack| - 1;
      if shareStrings {
        var so := (stack[n].u as nat, |s|);
        var found := M.FindString(buf, stringPool, so);
        if found.Some? {
          FoundString(buf, stringPool, so);
          buf := buf[..resetTo];
          var reused := stack[n].(u := found.value);
          StringReused(old(buf), old(stack), reused);
          stack := stack[n := reused];
          assert buf == old(buf) && stack == old(stack) + [reused];
        } else {
          stringPool := stringPool + [so];
        }
      }
    }

    // ---------- Vectors ----------

    /** The least width that every element, stored at its estimated place, fits. */
    method VectorWidth(start: nat, n: nat, step: nat, prefix: nat, least: Width) returns (bw: Width)
      requires Valid() && Strides(stack, start, n, step) && |buf| < FLEX_LIMIT && n < FLEX_LIMIT && prefix <= 3
      ensures bw == M.VectorWidth(least, |buf|, Every(stack, start, n, step), step, prefix)
    {
      hide M.ElemWidth, PlacedBelow;
      ghost var vals := Every(stack, start, n, step);
      bw := least;
      var i := start;
      ghost var k := 0;
      assert vals[..0] == [];
      while i < |stack|
        invariant k <= n && i == At(start, step, k)
        invariant bw == M.VectorWidth(least, |buf|, vals[..k], step, prefix)
      {
        assert vals[..k + 1][..k] == vals[..k] && vals[k] == stack[i];
        var elemWidth := ElemWidth(stack[i], |buf|, i - start + prefix);
        bw := M.MaxWidth(bw, elemWidth);
        i := i + step;
        k := k + 1;
      }
      assert vals[..n] == vals;
    }

    method WriteElements(start: nat, n: nat, step: nat, bw: Width)
      requires Strides(stack, start, n, step)
      requires AllFit(Every(stack, start, n, step), |buf|, bw)
      modifies `buf
      ensures buf == M.WriteElements(old(buf), Every(stack, start, n, step), ByteWidth(bw))
    {
      hide M.WriteAny, Fits;
      ghost var vals := Every(stack, start, n, step);
      var i := start;
      ghost var k := 0;
      assert vals[..0] == [];
      while i < |stack|
        invariant k <= n && i == At(start, step, k)
        invariant buf == M.WriteElements(old(buf), vals[..k], ByteWidth(bw))
      {
        assert vals[..k + 1][..k] == vals[..k] && vals[k] == stack[i];
        ElementsGrow(old(buf), vals[..k], ByteWidth(bw));
        WriteAny(stack[i], bw);
        i := i + step;
        k := k + 1;
      }
      assert vals[..n] == vals;
    }

    method WriteTypes(start: nat, n: nat, step: nat, bw: Width)
      requires Strides(stack, start, n, step)
      modifies `buf
      ensures buf == M.WriteTypes(old(buf), Every(stack, start, n, step), bw)
    {
      hide M.StoredPackedType;
      ghost var vals := Every(stack, start, n, step);
      var i := start;
      ghost var k := 0;
      assert vals[..0] == [];
      while i < |stack|
        invariant k <= n && i == At(start, step, k)
        invariant buf == M.WriteTypes(old(buf), vals[..k], bw)
      {
        assert vals[..k + 1][..k] == vals[..k] && vals[k] == stack[i];
        buf := buf + [M.StoredPackedType(stack[i], bw)];
        i := i + step;
        k := k + 1;
      }
      assert vals[..n] == vals;
    }

    /** The least width for the size, the elements and the reference to the keys. */
    method LayoutWidth(start: nat, n: nat, step: nat, keys: Option<Value>) returns (bw: Width)
      requires Valid() && Strides(stack, start, n, step) && |buf| < FLEX_LIMIT && n < FLEX_LIMIT
               && KeysPlaced(buf, keys)
      ensures bw == M.LayoutWidth(buf, minWidth, Every(stack, start, n, step), step, keys)
    {
      hide M.VectorWidth, Every, M.ElemWidth, SizeWidth, AllPlaced;
      bw := M.MaxWidth(minWidth, SizeWidth(n));
      var prefixElems := 1;
      if keys.Some? {
        var keysWidth := ElemWidth(keys.value, |buf|, 0);
        bw := M.MaxWidth(bw, keysWidth);
        prefixElems := 3;
      }
      bw := VectorWidth(start, n, step, prefixElems, bw);
    }

    /** Padding, the keys of a map, and the number of elements. */
    method WriteHeader(keys: Option<Value>, n: nat, bw: Width) returns (w: nat)
      requires |buf| < WORD
      requires keys.Some? ==> 0 <= SlotPosition(|buf|, 0, bw) - keys.value.u < Capacity(bw)
      modifies `buf
      ensures w == ByteWidth(bw) && buf == M.WriteHeader(old(buf), keys, n, w)
    {
      hide ToLE, Unsigned, Capacity;
      w := Align(bw);
      if keys.Some? {
        WriteOffset(keys.value.u, bw);
        Write(ByteWidth(keys.value.minWidth), w);
      }
      Write(n, w);
    }

    method CreateVector(start: nat, n: nat, step: nat, typed: bool, keys: Option<Value>) returns (vec: Value)
      requires Valid() && Strides(stack, start, n, step) && |buf| < FLEX_LIMIT && n < FLEX_LIMIT
               && KeysPlaced(buf, keys)
      requires typed ==> IsTypedElement(ElementType(Every(stack, start, n, step)))
                         && forall v :: v in Every(stack, start, n, step) ==>
                              v.typ == ElementType(Every(stack, start, n, step))
      modifies `buf
      ensures (buf, vec) == M.CreateVector(old(buf), minWidth, Every(stack, start, n, step), step, typed, keys)
      ensures old(buf) <= buf && Placed(buf, vec)
      ensures vec.typ == if keys.Some? then FBT_MAP
                         else if typed then ToTypedVector(ElementType(Every(stack, start, n, step)))
                         else FBT_VECTOR
    {
      hide M.LayoutWidth, M.WriteHeader, M.WriteElements, M.WriteTypes, Every, Fits, M.StoredPackedType, WidthU,
           ToLE, AllPlaced;
      ghost var vals := Every(stack, start, n, step);
      ghost var b := buf;
      EveryPlaced(b, stack, start, n, step);
      VectorPlace(b, minWidth, vals, step, typed, keys);
      var bw := LayoutWidth(start, n, step, keys);
      ElementsFit(b, minWidth, vals, step, keys, bw);
      var w := WriteHeader(keys, n, bw);
      HeaderEnds(b, keys, n, bw);
      var vloc := |buf|;
      WriteElements(start, n, step, bw);
      if !typed { WriteTypes(start, n, step, bw); }
      FirstOfEvery(stack, start, n, step);
      var vectorType := if n == 0 then FBT_KEY else stack[start].typ;
      vec := M.Value(vloc, if keys.Some? then FBT_MAP else if typed then ToTypedVector(vectorType) else FBT_VECTOR, bw);
    }

    method EndVector(start: nat)
      requires Valid() && start <= |stack| && |M.EndVector(Model(), start).buf| < FLEX_LIMIT
      modifies `buf, `stack
      ensures Valid() && Model() == M.EndVector(old(Model()), start)
    {
      hide M.CreateVector, Every, PlacedBelow, CString;
      EveryOne(stack, start);
      EndVectorGrows(Model(), start);
      var vec := CreateVector(start, |stack| - start, 1, false, None);
      DonePlaced(old(buf), buf, stack, start, vec);
      ReadableLater(old(buf), buf, stack, keyPool);
      stack := stack[..start] + [vec];
    }

    // ---------- Maps ----------

    /** Whether one key's characters come before another's, as strcmp finds. */
    method KeyLess(p: int, q: int) returns (less: bool)
      requires CString(buf, p).Ok? && CString(buf, q).Ok?
      ensures less == StringLessThan(CString(buf, p).value, CString(buf, q).value)
    {
      hide StringLessThan;
      StrcmpCompares(buf, p, buf, q);
      less := Strcmp(buf, p, buf, q).value < 0;
    }

    /** How many of the first k pairs, which are in key order, are not greater than pair k. */
    method PlaceFor(start: nat, k: nat) returns (i: nat)
      requires Valid() && KeysInPlace(stack, start) && start + 2 * k + 1 < |stack|
      ensures i <= k
      ensures forall j :: 0 <= j < i ==> !KeyBefore(buf, stack, start, k, j)
      ensures i < k ==> KeyBefore(buf, stack, start, k, i)
    {
      hide CString, StringLessThan, AllPlaced;
      i := 0;
      while i < k
        invariant i <= k && forall j :: 0 <= j < i ==> !KeyBefore(buf, stack, start, k, j)
      {
        assert KeyReadable(buf, stack[start + 2 * k]) && KeyReadable(buf, stack[start + 2 * i]);
        var less := KeyLess(stack[start + 2 * k].u, stack[start + 2 * i].u);
        if less { return; }
        i := i + 1;
      }
    }

    /** Sorts the keys, each with its value, in place: pair after pair is moved behind those that are not greater. */
    method SortDict(start: nat)
      requires Valid() && start <= |stack| && (|stack| - start) % 2 == 0 && KeysInPlace(stack, start)
      modifies `stack
      ensures Valid() && |stack| == |old(stack)| && stack[..start] == old(stack[..start])
      ensures InKeyOrder(buf, stack, start)
      ensures multiset(Pairs(stack, start)) == multiset(Pairs(old(stack), start))
      ensures stack == SortedPairs(buf, old(stack), start)
    {
      hide M.SortOrder, M.KeyName, Rearranged, Pairs, InKeyOrder, AllPlaced, KeysReadable, PoolReadable, KeyBefore,
           KeysInPlace;
      ghost var was, names := stack, PairNames(buf, stack, start);
      var len, k := (|stack| - start) / 2, 0;
      NothingRearranged(was, start, names);
      while k < len
        invariant k <= len && Valid() && KeysInPlace(stack, start) && |stack| == |was|
        invariant stack == Rearranged(was, start, M.SortOrder(names, k))
      {
        var i := PlaceFor(start, k);
        var from, to := start + 2 * k, start + 2 * i;
        OneMoreSorted(buf, was, stack, start, k, i);
        stack := stack[..to] + stack[from..from + 2] + stack[to..from] + stack[from + 2..];
        k := k + 1;
        RearrangedValid(buf, was, start, M.SortOrder(names, k));
      }
      SortedInOrder(buf, was, start);
    }

    method EndMap(start: nat)
      requires M.InPairs(Model().stack, start)
      requires |M.EndMap(Model(), start).buf| < FLEX_LIMIT
      requires Valid() && KeysInPlace(stack, start)
      modifies `buf, `stack
      ensures Model() == M.EndMap(old(Model()), start)
      ensures Valid()
    {
      hide M.CreateVector, M.SortOrder, SortedPairs, Every, AllPlaced, KeysInPlace, PlacedBelow,
        KeysReadable, PoolReadable, Pairs, InKeyOrder;
      var len := (|stack| - start) / 2;
      SortedStrides(buf, stack, start);
      MapRoom(Model(), start);
      SortDict(start);
      var keys := CreateVector(start, len, 2, true, None);
      PlacedLater(old(buf), buf, stack);
      ReadableLater(old(buf), buf, stack, keyPool);
      var vec := CreateVector(start + 1, len, 2, false, Some(keys));
      ReadableLater(old(buf), buf, old(stack), keyPool);
      DonePlaced(old(buf), buf, old(stack), start, vec);
      DoneReadable(buf, old(stack), start, vec);
      stack := stack[..start] + [vec];
    }

    // ---------- Finish ----------

    method Finish()
      requires Valid() && |stack| == 1 && |buf| < FLEX_LIMIT
      modifies `buf, `finished
      ensures buf == M.Finish(old(Model())) && finished
    {
      hide M.ElemWidth, M.WriteAny, Fits, WidthU, M.StoredPackedType;
      var root := stack[0];
      var bw := ElemWidth(root, |buf|, 0);
      CoveredFits(root, |buf|, 0, 0, bw);
      var w := Align(bw);
      WriteAny(root, bw);
      OneByteLE(M.StoredPackedType(root, 0));
      OneByteLE(w);
      Write(M.StoredPackedType(root, 0), 1);
      Write(w, 1);
      finished := true;
    }
  }

  lemma OneByteLE(n: byte)
    ensures ToLE(Unsigned(n, 1), 1) == [n]
  {
    Pow256Values();
    assert ToLE(n, 1) == [n % 256] + ToLE(n / 256, 0);
  }

  lemma EveryOne(stack: seq<Value>, start: nat)
    requires start <= |stack|
    ensures Strides(stack, start, |stack| - start, 1)
    ensures Every(stack, start, |stack| - start, 1) == stack[start..]
  {
  }

  /** The stack with its first pairs from `start` on replaced by the pairs at the given indices. */
  function Rearranged(stack: seq<Value>, start: nat, order: seq<nat>): (r: seq<Value>)
    requires start <= |stack| && |order| <= (|stack| - start) / 2
    requires forall i :: 0 <= i < |order| ==> order[i] < (|stack| - start) / 2
    ensures |r| == |stack|
  {
    seq(|stack|, i requires 0 <= i < |stack| =>
      if i < start || (i - start) / 2 >= |order| then stack[i]
      else stack[start + 2 * order[(i - start) / 2] + (i - start) % 2])
  }

  /** The stack with its pairs from `start` on in key order. */
  function SortedPairs(b: bytes, stack: seq<Value>, start: nat): (r: seq<Value>)
    requires start <= |stack| && (|stack| - start) % 2 == 0
    ensures |r| == |stack|
  {
    var names := PairNames(b, stack, start);
    Rearranged(stack, start, M.SortOrder(names, |names|))
  }

  /** Keys and values of a map on the stack, pair by pair. */
  function Pairs(stack: seq<Value>, start: nat): (r: seq<(Value, Value)>)
    requires start <= |stack|
    ensures |r| == (|stack| - start) / 2
  {
    seq((|stack| - start) / 2,
        i requires 0 <= i < (|stack| - start) / 2 => (stack[start + 2 * i], stack[start + 2 * i + 1]))
  }

  /** The key of pair k comes before that of pair j. */
  predicate KeyBefore(b: bytes, stack: seq<Value>, start: nat, k: nat, j: nat)
    requires start + 2 * k < |stack| && start + 2 * j < |stack|
  {
    StringLessThan(M.KeyName(b, stack[start + 2 * k]), M.KeyName(b, stack[start + 2 * j]))
  }

  /** No key comes before one that stands in front of it. */
  ghost predicate InKeyOrder(b: bytes, stack: seq<Value>, start: nat) {
    forall i, j :: 0 <= i < j && start + 2 * j + 1 < |stack| ==> !KeyBefore(b, stack, start, j, i)
  }

  function PairNames(b: bytes, stack: seq<Value>, start: nat): (r: seq<bytes>)
    requires start <= |stack|
    ensures |r| == (|stack| - start) / 2
  {
    seq((|stack| - start) / 2, i requires 0 <= i < (|stack| - start) / 2 => M.KeyName(b, stack[start + 2 * i]))
  }

  ghost predicate KeysInPlace(stack: seq<Value>, start: nat) {
    forall k: nat :: start + 2 * k < |stack| ==> stack[start + 2 * k].typ == FBT_KEY
  }

  /** Entry j of pair i after rearranging. */
  lemma RearrangedAt(stack: seq<Value>, start: nat, order: seq<nat>, k: nat)
    requires start <= |stack| && |order| <= (|stack| - start) / 2 && k < (|stack| - start) / 2
    requires forall i :: 0 <= i < |order| ==> order[i] < (|stack| - start) / 2
    ensures var r, at := Rearranged(stack, start, order), if k < |order| then order[k] else k;
            r[start + 2 * k] == stack[start + 2 * at] && r[start + 2 * k + 1] == stack[start + 2 * at + 1]
  {
    HalfOf(start, k);
  }

  lemma NothingRearranged(stack: seq<Value>, start: nat, names: seq<bytes>)
    requires start <= |stack|
    ensures Rearranged(stack, start, M.SortOrder(names, 0)) == stack
  {
  }

  lemma RearrangedValid(b: bytes, stack: seq<Value>, start: nat, order: seq<nat>)
    requires start <= |stack| && |order| <= (|stack| - start) / 2
    requires forall i :: 0 <= i < |order| ==> order[i] < (|stack| - start) / 2
    requires AllPlaced(b, stack) && KeysReadable(b, stack) && KeysInPlace(stack, start)
    ensures var r := Rearranged(stack, start, order);
            AllPlaced(b, r) && KeysReadable(b, r) && KeysInPlace(r, start) && r[..start] == stack[..start]
  {
    hide PlacedBelow, CString;
    var r := Rearranged(stack, start, order);
    forall k: nat | start + 2 * k < |r| ensures r[start + 2 * k].typ == FBT_KEY { HalfOf(start, k); }
  }

  /** Moving pair k to its place among the k pairs in front of it. */
  lemma MovedPair(stack: seq<Value>, start: nat, order: seq<nat>, i: nat)
    requires start <= |stack| && |order| < (|stack| - start) / 2 && i <= |order|
    requires forall j :: 0 <= j < |order| ==> order[j] < |order|
    ensures var s, from, to := Rearranged(stack, start, order), start + 2 * |order|, start + 2 * i;
            var more := order[..i] + [|order|] + order[i..];
            && from + 2 <= |s| && |more| == |order| + 1 && (forall j :: 0 <= j < |more| ==> more[j] <= |order|)
            && s[..to] + s[from..from + 2] + s[to..from] + s[from + 2..] == Rearranged(stack, start, more)
  {
    var k := |order|;
    var s, from, to, more := Rearranged(stack, start, order), start + 2 * k, start + 2 * i,
        order[..i] + [k] + order[i..];
    HalfOf(start, k);
    forall x | 0 <= x < |s|
      ensures (s[..to] + s[from..from + 2] + s[to..from] + s[from + 2..])[x] == Rearranged(stack, start, more)[x]
    {
      MovedEntry(s, from, to, x);
      MovedSource(stack, start, order, i, more, x);
    }
  }

  lemma MovedEntry(s: seq<Value>, from: nat, to: nat, x: nat)
    requires to <= from && from + 2 <= |s| && x < |s|
    ensures (s[..to] + s[from..from + 2] + s[to..from] + s[from + 2..])[x]
            == s[if to <= x < to + 2 then x - to + from else if to + 2 <= x < from + 2 then x - 2 else x]
  {
  }

  lemma MovedSource(stack: seq<Value>, start: nat, order: seq<nat>, i: nat, more: seq<nat>, x: nat)
    requires start <= |stack| && |order| < (|stack| - start) / 2 && i <= |order| && x < |stack|
    requires forall j :: 0 <= j < |order| ==> order[j] < |order|
    requires more == order[..i] + [|order|] + order[i..]
    ensures forall j :: 0 <= j < |more| ==> more[j] <= |order|
    ensures var from, to := start + 2 * |order|, start + 2 * i;
            var y := if to <= x < to + 2 then x - to + from else if to + 2 <= x < from + 2 then x - 2 else x;
            y < |stack| && Rearranged(stack, start, more)[x] == Rearranged(stack, start, order)[y]
  {
    var k, to := |order|, start + 2 * i;
    if x >= start {
      var j, c := (x - start) / 2, (x - start) % 2;
      HalfOf(start, k);
      if to <= x < to + 2 {
        HalfOf(start, i);
      } else if to + 2 <= x < start + 2 * k + 2 {
        assert (x - 2 - start) / 2 == j - 1 && (x - 2 - start) % 2 == c && more[j] == order[j - 1];
      } else if x < to {
        assert more[j] == order[j];
      }
    }
  }

  lemma OneMoreSorted(b: bytes, was: seq<Value>, stack: seq<Value>, start: nat, k: nat, i: nat)
    requires start <= |was| && k < (|was| - start) / 2 && i <= k
    requires stack == Rearranged(was, start, M.SortOrder(PairNames(b, was, start), k))
    requires start + 2 * k + 1 < |stack|
    requires forall j :: 0 <= j < i ==> !KeyBefore(b, stack, start, k, j)
    requires i < k ==> KeyBefore(b, stack, start, k, i)
    ensures var from, to := start + 2 * k, start + 2 * i;
            stack[..to] + stack[from..from + 2] + stack[to..from] + stack[from + 2..]
            == Rearranged(was, start, M.SortOrder(PairNames(b, was, start), k + 1))
  {
    hide M.KeyName, M.InsertIndex, Rearranged, StringLessThan;
    var names := PairNames(b, was, start);
    var order := M.SortOrder(names, k);
    RearrangedAt(was, start, order, k);
    forall j | 0 <= j <= i && j < k
      ensures KeyBefore(b, stack, start, k, j) <==> StringLessThan(names[k], names[order[j]])
    {
      RearrangedAt(was, start, order, j);
    }
    InsertIndexAt(names, order, k, i);
    MovedPair(was, start, order, i);
  }

  lemma SortedInOrder(b: bytes, stack: seq<Value>, start: nat)
    requires start <= |stack| && (|stack| - start) % 2 == 0
    ensures var r := SortedPairs(b, stack, start);
            && r[..start] == stack[..start] && InKeyOrder(b, r, start)
            && multiset(Pairs(r, start)) == multiset(Pairs(stack, start))
  {
    hide M.KeyName, M.SortOrder, KeyBefore, Sorted, Rearranged, Pairs, Picked, NoRepeats, Covers;
    var names, r := PairNames(b, stack, start), SortedPairs(b, stack, start);
    var order := M.SortOrder(names, |names|);
    SortOrderSorts(names, |names|);
    SortPicked(Pairs(stack, start), names, |names|);
    RearrangedPairs(stack, start, order);
    assert Pairs(stack, start)[..|names|] == Pairs(stack, start);
    forall i, j | 0 <= i < j && start + 2 * j + 1 < |r| ensures !KeyBefore(b, r, start, j, i) {
      InOrderAt(b, stack, start, order, i, j);
    }
  }

  lemma RearrangedPairs(stack: seq<Value>, start: nat, order: seq<nat>)
    requires start <= |stack| && |order| == (|stack| - start) / 2
    requires forall i :: 0 <= i < |order| ==> order[i] < |order|
    ensures Pairs(Rearranged(stack, start, order), start) == Picked(Pairs(stack, start), order)
    ensures Rearranged(stack, start, order)[..start] == stack[..start]
  {
    forall k | 0 <= k < |order|
      ensures Pairs(Rearranged(stack, start, order), start)[k] == Picked(Pairs(stack, start), order)[k]
    {
      RearrangedAt(stack, start, order, k);
    }
  }

  lemma InOrderAt(b: bytes, stack: seq<Value>, start: nat, order: seq<nat>, i: nat, j: nat)
    requires start <= |stack| && |order| == (|stack| - start) / 2 && Sorted(PairNames(b, stack, start), order)
    requires i < j && start + 2 * j + 1 < |stack|
    ensures !KeyBefore(b, Rearranged(stack, start, order), start, j, i)
  {
    hide M.KeyName, StringLessThan, Rearranged;
    RearrangedAt(stack, start, order, i);
    RearrangedAt(stack, start, order, j);
    SortedPair(PairNames(b, stack, start), order, i, j);
  }

  lemma SortedPair(names: seq<bytes>, order: seq<nat>, i: nat, j: nat)
    requires Sorted(names, order) && i < j < |order|
    ensures order[i] < |names| && order[j] < |names| && !StringLessThan(names[order[j]], names[order[i]])
  {
  }

  /** Keys and values of the sorted pairs, each in the common order. */
  lemma SortedStrides(b: bytes, stack: seq<Value>, start: nat)
    requires start <= |stack| && (|stack| - start) % 2 == 0 && KeysInPlace(stack, start)
    ensures var len, sorted, names := (|stack| - start) / 2, SortedPairs(b, stack, start), PairNames(b, stack, start);
            var order := M.SortOrder(names, |names|);
            && Strides(sorted, start, len, 2) && Strides(sorted, start + 1, len, 2)
            && Every(sorted, start, len, 2) == M.Pick(stack, start, 0, order)
            && Every(sorted, start + 1, len, 2) == M.Pick(stack, start, 1, order)
            && forall v :: v in Every(sorted, start, len, 2) ==> v.typ == FBT_KEY
  {
    hide M.SortOrder, M.KeyName, SortedPairs;
    var len, sorted, names := (|stack| - start) / 2, SortedPairs(b, stack, start), PairNames(b, stack, start);
    var order := M.SortOrder(names, |names|);
    var keys, vals := Every(sorted, start, len, 2), Every(sorted, start + 1, len, 2);
    forall k | 0 <= k < len
      ensures keys[k] == M.Pick(stack, start, 0, order)[k] && vals[k] == M.Pick(stack, start, 1, order)[k]
    {
      SortedAt(b, stack, start, k);
    }
    forall v | v in keys ensures v.typ == FBT_KEY {
      var k :| 0 <= k < |keys| && keys[k] == v;
      assert v == stack[start + 2 * order[k]];
    }
  }

  /** Pair k of the sorted stack is the one the order names. */
  lemma SortedAt(b: bytes, stack: seq<Value>, start: nat, k: nat)
    requires start <= |stack| && (|stack| - start) % 2 == 0 && k < (|stack| - start) / 2
    ensures var sorted, names := SortedPairs(b, stack, start), PairNames(b, stack, start);
            var order := M.SortOrder(names, |names|);
            && sorted[start + 2 * k] == stack[start + 2 * order[k]]
            && sorted[start + 2 * k + 1] == stack[start + 2 * order[k] + 1]
  {
    hide M.SortOrder, M.KeyName, PairNames, Rearranged;
    var names := PairNames(b, stack, start);
    RearrangedAt(stack, start, M.SortOrder(names, |names|), k);
  }

  lemma HalfOf(start: nat, k: nat)
    ensures (start + 2 * k - start) / 2 == k && (start + 2 * k - start) % 2 == 0
    ensures (start + 2 * k + 1 - start) / 2 == k && (start + 2 * k + 1 - start) % 2 == 1
  {
  }

  lemma MapRoom(st: M.Builder, start: nat)
    requires start <= |st.stack| && (|st.stack| - start) % 2 == 0
    requires |M.EndMap(st, start).buf| < FLEX_LIMIT
    ensures |st.buf| < FLEX_LIMIT && (|st.stack| - start) / 2 < FLEX_LIMIT
    ensures M.StackNames(st, start) == PairNames(st.buf, st.stack, start)
    ensures var order := M.SortOrder(M.StackNames(st, start), |M.StackNames(st, start)|);
            |M.CreateVector(st.buf, st.minWidth, M.Pick(st.stack, start, 0, order), 2, true, None).0| < FLEX_LIMIT
  {
    hide M.CreateVector, M.CreateMap, M.InsertIndex, M.KeyName;
    var names := M.StackNames(st, start);
    var order := M.SortOrder(names, |names|);
    MapGrows(st.buf, st.minWidth, M.Pick(st.stack, start, 0, order), M.Pick(st.stack, start, 1, order));
  }

  /** Keys on the stack, and in the pool, are terminated. */
  predicate KeysReadable(b: bytes, vals: seq<Value>) {
    forall i {:trigger KeyReadable(b, vals[i])} :: 0 <= i < |vals| ==> KeyReadable(b, vals[i])
  }

  predicate KeyReadable(b: bytes, v: Value) {
    v.typ == FBT_KEY ==> CString(b, v.u).Ok?
  }

  predicate PoolReadable(b: bytes, pool: seq<nat>) {
    forall p :: p in pool ==> CString(b, p).Ok?
  }

  lemma ReadableLater(b: bytes, c: bytes, stack: seq<Value>, pool: seq<nat>)
    requires b <= c && KeysReadable(b, stack) && PoolReadable(b, pool)
    ensures KeysReadable(c, stack) && PoolReadable(c, pool)
  {
    hide CString;
    forall i | 0 <= i < |stack| ensures KeyReadable(c, stack[i]) {
      assert KeyReadable(b, stack[i]);
      if stack[i].typ == FBT_KEY { CStringGrows(b, c, stack[i].u); }
    }
    forall p | p in pool ensures CString(c, p).Ok? { CStringGrows(b, c, p); }
  }

  lemma DoneReadable(b: bytes, stack: seq<Value>, start: nat, vec: Value)
    requires KeysReadable(b, stack) && start <= |stack| && vec.typ != FBT_KEY
    ensures KeysReadable(b, stack[..start] + [vec])
  {
    hide CString;
  }

  lemma PushReadable(b: bytes, stack: seq<Value>, v: Value)
    requires KeysReadable(b, stack) && v.typ != FBT_KEY
    ensures KeysReadable(b, stack + [v])
  {
    hide CString;
  }

  /** Every position in front of a final zero begins a terminated string. */
  lemma {:induction false} Terminated(b: bytes, p: nat)
    requires p < |b| && b[|b| - 1] == 0
    ensures CString(b, p).Ok?
    decreases |b| - p
  {
    if b[p] != 0 { Terminated(b, p + 1); }
  }

  lemma PooledKeyPlaced(b: bytes, pool: seq<nat>)
    requires PoolReadable(b, pool)
    ensures forall p :: p in pool ==> p < |b|
  {
  }

  lemma NewKeyReadable(b: bytes, s: bytes, stack: seq<Value>, pool: seq<nat>)
    requires KeysReadable(b, stack) && PoolReadable(b, pool)
    ensures var c := b + s + [0];
            && KeysReadable(c, stack) && PoolReadable(c, pool) && CString(c, |b|).Ok?
            && c[..|b|] == b && forall p :: p in pool ==> p < |b|
  {
    hide CString, KeysReadable, PoolReadable;
    ReadableLater(b, b + s + [0], stack, pool);
    PooledKeyPlaced(b, pool);
    Terminated(b + s + [0], |b|);
  }

  lemma PlacedLater(b: bytes, c: bytes, stack: seq<Value>)
    requires |b| <= |c| && AllPlaced(b, stack)
    ensures AllPlaced(c, stack)
  {
  }

  lemma DonePlaced(b: bytes, c: bytes, stack: seq<Value>, start: nat, vec: Value)
    requires |b| <= |c| && AllPlaced(b, stack) && start <= |stack| && Placed(c, vec)
    ensures AllPlaced(c, stack[..start] + [vec])
  {
  }

  /** Each value fits its slot of those from `p` on. */
  predicate AllFit(vals: seq<Value>, p: nat, bw: Width) {
    forall k :: 0 <= k < |vals| ==> Fits(vals[k], p + k * ByteWidth(bw), bw)
  }

  lemma FirstOfEvery(stack: seq<Value>, start: nat, n: nat, step: nat)
    requires Strides(stack, start, n, step)
    ensures n > 0 ==> start < |stack|
    ensures ElementType(Every(stack, start, n, step)) == if n == 0 then FBT_KEY else stack[start].typ
  {
  }

  lemma EveryPlaced(b: bytes, stack: seq<Value>, start: nat, n: nat, step: nat)
    requires Strides(stack, start, n, step) && AllPlaced(b, stack)
    ensures AllPlaced(b, Every(stack, start, n, step))
  {
    hide Placed;
  }

  /** No offset that CreateVector writes is too wide for its slot, the one to the keys included. */
  lemma ElementsFit(b: bytes, minWidth: Width, vals: seq<Value>, step: nat, keys: Option<Value>, bw: Width)
    requires |b| < FLEX_LIMIT && |vals| < FLEX_LIMIT && 1 <= step <= 2 && AllPlaced(b, vals) && KeysPlaced(b, keys)
    requires bw == M.LayoutWidth(b, minWidth, vals, step, keys)
    ensures AllFit(vals, SlotPosition(|b|, PrefixSlots(keys), bw), bw)
    ensures keys.Some? ==> 0 <= SlotPosition(|b|, 0, bw) - keys.value.u < Capacity(bw)
  {
    hide M.LayoutWidth, Fits, SlotPosition, Capacity, M.ElemWidth;
    forall k | 0 <= k < |vals| ensures Fits(vals[k], SlotPosition(|b|, PrefixSlots(keys), bw) + k * ByteWidth(bw), bw) {
      ElementFits(b, minWidth, vals, step, keys, k);
      SlotsAfter(|b|, PrefixSlots(keys), k, bw);
    }
    if keys.Some? {
      LayoutCovers(b, minWidth, vals, step, keys);
      CoveredFits(keys.value, |b|, 0, 0, bw);
      FitsMeans(keys.value, SlotPosition(|b|, 0, bw), bw);
    }
  }

  lemma FitsMeans(v: Value, p: nat, bw: Width)
    requires Fits(v, p, bw) && !M.IsInline(v.typ)
    ensures 0 <= p - v.u < Capacity(bw)
  {
  }

  /** A blob is its header and its data. */
  lemma BlobParts(b: bytes, s: bytes, trailing: nat, typ: nat)
    requires |s| < WORD
    ensures var bw := WidthU(|s|);
            var header := M.Write(M.Align(b, ByteWidth(bw)), |s|, ByteWidth(bw));
            b <= header && M.CreateBlob(b, s, trailing, typ)
                           == (header + s + Zeros(trailing), M.Value(|header|, typ, bw))
  {
    hide WidthU, ToLE, Padding;
    ModUnique(|s|, WORD, 0, |s|);
  }

  lemma BlobPlaced(before: bytes, b: bytes, s: bytes, trailing: nat, stack: seq<Value>, v: Value)
    requires |before| <= |b| && before <= b && AllPlaced(before, stack) && v.u == |b|
    ensures AllPlaced(b + s + Zeros(trailing), stack + [v]) && before <= b + s + Zeros(trailing)
  {
  }

  lemma StringReused(b: bytes, stack: seq<Value>, v: Value)
    requires AllPlaced(b, stack) && 0 <= v.u <= |b|
    ensures AllPlaced(b, stack + [v])
  {
  }

  lemma {:induction false} FoundInPool(b: bytes, pool: seq<nat>, p: nat)
    ensures M.FindKey(b, pool, p).Some? ==> M.FindKey(b, pool, p).value in pool
    decreases |pool|
  {
    if pool != [] { FoundInPool(b, pool[1..], p); }
  }

  lemma {:induction false} FoundString(b: bytes, pool: seq<(nat, nat)>, x: (nat, nat))
    ensures var r := M.FindString(b, pool, x); r.Some? ==> exists y :: y in pool && y.0 == r.value
    decreases |pool|
  {
    hide M.SpanLess;
    if pool != [] {
      assert pool[0] in pool;
      FoundString(b, pool[1..], x);
    }
  }
}
