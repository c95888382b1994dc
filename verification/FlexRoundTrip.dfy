/**
 The FlexBuffers round trip: reading the root of the finished bytes gives back the tree that
 was emitted, maps in key order, whatever is shared and whatever width is forced.
 */
module FlexRoundTrip {
  import opened Bits
  import opened Bytes
  import opened Wrappers
  import opened Table
  import opened StringOrder
  import opened FlexWidths
  import opened FlexReader
  import opened FlexModel
  import opened FlexVectors
  import opened FlexEmit

  // ---------- Keys ----------

  lemma {:induction false} CStringWritten(b: bytes, s: bytes, i: nat)
    requires NoZero(s) && i <= |s|
    ensures CString(b + s + [0], |b| + i) == Ok(s[i..])
    decreases |s| - i
  {
    var c := b + s + [0];
    if i < |s| {
      CStringWritten(b, s, i + 1);
      assert c[|b| + i] == s[i];
      assert s[i..] == [s[i]] + s[i + 1..];
    } else {
      assert c[|b| + i] == 0 && s[i..] == [];
    }
  }

  predicate KeysOk(b: bytes, pool: seq<nat>) {
    forall i :: 0 <= i < |pool| ==> CString(b, pool[i]).Ok?
  }

  lemma KeysOkGrow(b: bytes, c: bytes, pool: seq<nat>)
    requires b <= c && KeysOk(b, pool)
    ensures KeysOk(c, pool)
  {
    forall i | 0 <= i < |pool| ensures CString(c, pool[i]).Ok? { CStringGrows(b, c, pool[i]); }
  }

  /** The pool's find returns a key with the same characters, and misses none. */
  lemma {:induction false} FindKeyFinds(b: bytes, pool: seq<nat>, p: nat)
    requires KeysOk(b, pool) && CString(b, p).Ok?
    ensures var r := FindKey(b, pool, p);
            && (r.Some? ==> r.value in pool && CString(b, r.value) == CString(b, p))
            && (r.None? ==> forall i :: 0 <= i < |pool| ==> CString(b, pool[i]) != CString(b, p))
    decreases |pool|
  {
    if pool != [] {
      StrcmpCompares(b, pool[0], b, p);
      FindKeyFinds(b, pool[1..], p);
    }
  }

  // ---------- Strings ----------

  /** A pooled string: its size before it, a zero behind it. */
  predicate StringAt(b: bytes, x: (nat, nat)) {
    && x.1 < WORD && x.0 + x.1 < |b| && b[x.0 + x.1] == 0
    && SizedBytes(b, x.0, ByteWidth(WidthU(x.1))) == Ok(b[x.0..x.0 + x.1])
  }

  predicate StringsOk(b: bytes, pool: seq<(nat, nat)>) {
    forall i :: 0 <= i < |pool| ==> StringAt(b, pool[i])
  }

  lemma StringAtGrows(b: bytes, c: bytes, x: (nat, nat))
    requires b <= c && StringAt(b, x)
    ensures StringAt(c, x) && c[x.0..x.0 + x.1] == b[x.0..x.0 + x.1]
  {
    SizedBytesGrow(b, c, x.0, ByteWidth(WidthU(x.1)));
    assert c[x.0..x.0 + x.1] == b[x.0..x.0 + x.1];
  }

  lemma StringsOkGrow(b: bytes, c: bytes, pool: seq<(nat, nat)>)
    requires b <= c && StringsOk(b, pool)
    ensures StringsOk(c, pool)
  {
    forall i | 0 <= i < |pool| ensures StringAt(c, pool[i]) { StringAtGrows(b, c, pool[i]); }
  }

  lemma {:induction false} MemcmpEqual(a: bytes, b: bytes, n: nat)
    requires n <= |a| && n <= |b|
    ensures Memcmp(a, b, n) == 0 <==> a[..n] == b[..n]
    ensures Memcmp(a, b, n) < 0 <==> Memcmp(b, a, n) > 0
    decreases n
  {
    if n > 0 {
      assert a[..n] == [a[0]] + a[1..][..n - 1] && b[..n] == [b[0]] + b[1..][..n - 1];
      MemcmpEqual(a[1..], b[1..], n - 1);
    }
  }

  /** Comparing through the terminator and then by length tells strings apart, embedded zeros included. */
  lemma SpansCompare(b: bytes, x: (nat, nat), y: (nat, nat))
    requires StringAt(b, x) && StringAt(b, y)
    ensures !SpanLess(b, x, y) && !SpanLess(b, y, x) <==> b[x.0..x.0 + x.1] == b[y.0..y.0 + y.1]
  {
    hide SizedBytes, WidthU, Memcmp;
    var m := Min(x.1, y.1) + 1;
    var s, t := b[x.0..], b[y.0..];
    MemcmpEqual(s, t, m);
    MemcmpEqual(t, s, m);
    assert m > 0 && m <= |s| && m <= |t|;
    if x.1 == y.1 {
      assert s[..m] == b[x.0..x.0 + x.1] + [0] && t[..m] == b[y.0..y.0 + y.1] + [0];
      if s[..m] == t[..m] {
        assert s[..m][..x.1] == b[x.0..x.0 + x.1] && t[..m][..x.1] == b[y.0..y.0 + y.1];
      }
    }
  }

  lemma {:induction false} FindStringFinds(b: bytes, pool: seq<(nat, nat)>, x: (nat, nat))
    requires StringsOk(b, pool) && StringAt(b, x)
    ensures var r := FindString(b, pool, x);
            && (r.Some? ==> && (r.value, x.1) in pool && r.value + x.1 <= |b|
                            && b[r.value..r.value + x.1] == b[x.0..x.0 + x.1])
            && (r.None? ==> forall i :: 0 <= i < |pool| ==> b[pool[i].0..pool[i].0 + pool[i].1] != b[x.0..x.0 + x.1])
    decreases |pool|
  {
    hide SpanLess, SizedBytes, WidthU;
    if pool != [] {
      SpansCompare(b, pool[0], x);
      FindStringFinds(b, pool[1..], x);
      if !SpanLess(b, pool[0], x) && !SpanLess(b, x, pool[0]) {
        assert |b[pool[0].0..pool[0].0 + pool[0].1]| == |b[x.0..x.0 + x.1]|;
        assert pool[0] == (pool[0].0, x.1);
      }
    }
  }

  /** Where CreateBlob puts the data, its size, and the zeros behind it. */
  lemma BlobStored(b: bytes, s: bytes, trailing: nat, typ: nat)
    requires |s| < WORD
    ensures var (c, v) := CreateBlob(b, s, trailing, typ);
            && b <= c && |b| <= v.u && v.typ == typ && v.minWidth == WidthU(|s|)
            && |c| == v.u + |s| + trailing
            && c[v.u..v.u + |s|] == s
            && (forall i :: v.u + |s| <= i < |c| ==> c[i] == 0)
            && SizedBytes(c, v.u, ByteWidth(v.minWidth)) == Ok(s)
  {
    hide SizedBytes, ByteWidth, Align, Write, Load, WidthU;
    var bw := WidthU(|s|);
    var b1 := Write(Align(b, ByteWidth(bw)), |s|, ByteWidth(bw));
    var (c, v) := CreateBlob(b, s, trailing, typ);
    BlobSize(b, |s|);
    assert c == b1 + s + Zeros(trailing);
    BlobReads(b1, s, Zeros(trailing), bw);
  }

  lemma BlobSize(b: bytes, n: nat)
    requires n < WORD
    ensures var w := ByteWidth(WidthU(n));
            var b1 := Write(Align(b, w), n, w);
            b <= b1 && |b1| >= w && Load(b1, |b1| - w, w) == Ok(n)
  {
    hide Load, Unsigned, WidthU;
    var w := ByteWidth(WidthU(n));
    assert b <= Align(b, w);
    WriteLoads(Align(b, w), n, w);
    UIntFits(n, WidthU(n));
  }

  lemma BlobReads(b1: bytes, s: bytes, tail: bytes, bw: Width)
    requires |b1| >= ByteWidth(bw) && Load(b1, |b1| - ByteWidth(bw), ByteWidth(bw)) == Ok(|s|)
    ensures SizedBytes(b1 + s + tail, |b1|, ByteWidth(bw)) == Ok(s)
    ensures (b1 + s + tail)[|b1|..|b1| + |s|] == s
  {
    var c := b1 + s + tail;
    LoadGrows(b1, c, |b1| - ByteWidth(bw), ByteWidth(bw));
    assert c[|b1|..|b1| + |s|] == s;
  }

  // ---------- What every call keeps ----------

  /** The pools refer to finished keys and strings. */
  ghost predicate PoolsOk(st: Builder) {
    KeysOk(st.buf, st.keyPool) && StringsOk(st.buf, st.stringPool)
  }

  /** The call appended to the buffer and pushed one value that stands for the tree. */
  ghost predicate Pushed(st: Builder, r: Builder, t: Tree) {
    && PoolsOk(r) && st.buf <= r.buf
    && |r.stack| == |st.stack| + 1 && r.stack[..|st.stack|] == st.stack
    && Holds(r.buf, r.stack[|st.stack|], t)
  }

  lemma PoolsGrow(st: Builder, b: bytes)
    requires PoolsOk(st) && st.buf <= b
    ensures PoolsOk(st.(buf := b))
  {
    KeysOkGrow(st.buf, b, st.keyPool);
    StringsOkGrow(st.buf, b, st.stringPool);
  }

  lemma KeyPushed(st: Builder, s: bytes)
    requires PoolsOk(st) && NoZero(s)
    ensures var r := Key(st, s);
            && PoolsOk(r) && st.buf <= r.buf
            && |r.stack| == |st.stack| + 1 && r.stack[..|st.stack|] == st.stack
            && HoldsKey(r.buf, r.stack[|st.stack|], s)
  {
    hide StringsOk, FindKey;
    var loc, b := |st.buf|, st.buf + s + [0];
    CStringWritten(st.buf, s, 0);
    assert s[0..] == s;
    PoolsGrow(st, b);
    FindKeyFinds(b, st.keyPool, loc);
    if st.shareKeys && FindKey(b, st.keyPool, loc).Some? {
      var p := FindKey(b, st.keyPool, loc).value;
      CStringGrows(st.buf, b, p);
    }
  }

  lemma BlobPushed(st: Builder, s: bytes)
    requires PoolsOk(st) && |s| < WORD
    ensures Pushed(st, Blob(st, s), BlobT(s))
  {
    hide SizedBytes, CreateBlob, KeysOk, StringsOk;
    BlobStored(st.buf, s, 0, FBT_BLOB);
    var (b, v) := CreateBlob(st.buf, s, 0, FBT_BLOB);
    PoolsGrow(st, b);
  }

  lemma StringPushed(st: Builder, s: bytes)
    requires PoolsOk(st) && |s| < WORD
    ensures Pushed(st, String(st, s), StringT(s))
  {
    hide SizedBytes, CreateBlob, KeysOk, FindString, StringAt, WidthU, ByteWidth, Load;
    BlobStored(st.buf, s, 1, FBT_STRING);
    var (b, v) := CreateBlob(st.buf, s, 1, FBT_STRING);
    PoolsGrow(st, b);
    NewStringAt(b, v, s);
    OneByte(b, v.u + |s|);
    if st.shareStrings { SharedString(st, s, b, v.u); }
  }

  /** A string found in the pool reads as itself in the buffer it is rolled back to. */
  lemma SharedString(st: Builder, s: bytes, b: bytes, p: nat)
    requires PoolsOk(st) && st.buf <= b && StringsOk(b, st.stringPool) && |s| < WORD
    requires StringAt(b, (p, |s|)) && b[p..p + |s|] == s
    ensures var r := FindString(b, st.stringPool, (p, |s|));
            r.Some? ==>
              && r.value <= |st.buf| && SizedBytes(st.buf, r.value, ByteWidth(WidthU(|s|))) == Ok(s)
              && Load(st.buf, r.value + |s|, 1) == Ok(0)
  {
    hide SizedBytes, KeysOk, FindString, StringAt, StringsOk, WidthU, ByteWidth, Load;
    FindStringFinds(b, st.stringPool, (p, |s|));
    if FindString(b, st.stringPool, (p, |s|)).Some? {
      PooledHolds(st.buf, b, st.stringPool, (FindString(b, st.stringPool, (p, |s|)).value, |s|), s);
    }
  }

  lemma NewStringAt(b: bytes, v: Value, s: bytes)
    requires |s| < WORD && v.u >= 0 && |b| == v.u + |s| + 1 && b[v.u + |s|] == 0
    requires b[v.u..v.u + |s|] == s && v.minWidth == WidthU(|s|)
    requires SizedBytes(b, v.u, ByteWidth(v.minWidth)) == Ok(s)
    ensures StringAt(b, (v.u, |s|))
  {
  }

  lemma PooledHolds(kept: bytes, b: bytes, pool: seq<(nat, nat)>, x: (nat, nat), s: bytes)
    requires kept <= b && StringsOk(kept, pool) && x in pool && x.1 == |s| < WORD
    requires x.0 + x.1 <= |b| && b[x.0..x.0 + x.1] == s
    ensures x.0 <= |kept| && SizedBytes(kept, x.0, ByteWidth(WidthU(|s|))) == Ok(s)
    ensures Load(kept, x.0 + |s|, 1) == Ok(0)
  {
    hide SizedBytes, Load;
    assert StringAt(kept, x);
    OneByte(kept, x.0 + x.1);
    assert kept[x.0..x.0 + x.1] == b[x.0..x.0 + x.1];
  }

  // ---------- Growth ----------

  lemma {:induction false} EmitGrows(st: Builder, t: Tree)
    requires WellFormed(t)
    ensures st.buf <= Emit(st, t).buf
    decreases t, 0
  {
    hide CreateVector, CreateBlob, Holds;
    match t
    case StringT(s) => CreateBlobGrows(st.buf, s, 1, FBT_STRING);
    case BlobT(s) => CreateBlobGrows(st.buf, s, 0, FBT_BLOB);
    case VectorT(elems) =>
      EmitAllGrows(st, elems, |elems|);
      EndVectorGrows(EmitAll(st, elems, |elems|), |st.stack|);
    case MapT(entries) =>
      EmitEntriesGrows(st, entries, |entries|);
      EndMapGrows(EmitEntries(st, entries, |entries|), |st.stack|);
    case _ =>
  }

  lemma CreateBlobGrows(b: bytes, s: bytes, trailing: nat, typ: nat)
    ensures b <= CreateBlob(b, s, trailing, typ).0
    ensures CreateBlob(b, s, trailing, typ).1.u >= 0
    ensures |s| <= |CreateBlob(b, s, trailing, typ).0|
  {
  }

  lemma EndVectorGrows(st: Builder, start: nat)
    requires start <= |st.stack|
    ensures st.buf <= EndVector(st, start).buf
    ensures |st.stack| - start <= |EndVector(st, start).buf|
  {
    hide CreateVector, LayoutWidth, WriteHeader;
    VectorPlace(st.buf, st.minWidth, st.stack[start..], 1, false, None);
  }

  lemma EndMapGrows(st: Builder, start: nat)
    requires start <= |st.stack| && (|st.stack| - start) % 2 == 0
    ensures st.buf <= EndMap(st, start).buf
    ensures (|st.stack| - start) / 2 <= |EndMap(st, start).buf|
  {
    hide CreateVector, CreateMap, InsertIndex;
    var names := StackNames(st, start);
    var order := SortOrder(names, |names|);
    MapGrows(st.buf, st.minWidth, Pick(st.stack, start, 0, order), Pick(st.stack, start, 1, order));
  }

  lemma {:induction false} EmitAllGrows(st: Builder, ts: seq<Tree>, k: nat)
    requires k <= |ts| && forall i :: 0 <= i < |ts| ==> WellFormed(ts[i])
    ensures st.buf <= EmitAll(st, ts, k).buf
    decreases ts, 0, k
  {
    hide Emit;
    if k > 0 {
      EmitAllGrows(st, ts, k - 1);
      EmitGrows(EmitAll(st, ts, k - 1), ts[k - 1]);
    }
  }

  lemma KeyGrowsBuffer(st: Builder, s: bytes)
    ensures st.buf <= Key(st, s).buf
  {
  }

  lemma {:induction false} EmitEntriesGrows(st: Builder, es: seq<Entry>, k: nat)
    requires k <= |es| && forall i :: 0 <= i < |es| ==> WellFormed(es[i].value)
    ensures st.buf <= EmitEntries(st, es, k).buf
    decreases es, 0, k
  {
    hide Emit, Key;
    if k > 0 {
      EmitEntriesGrows(st, es, k - 1);
      KeyGrowsBuffer(EmitEntries(st, es, k - 1), es[k - 1].key);
      EmitGrows(Key(EmitEntries(st, es, k - 1), es[k - 1].key), es[k - 1].value);
    }
  }

  // ---------- Trees ----------

  /** k more values on the stack, standing for these trees. */
  ghost predicate PushedAll(st: Builder, r: Builder, ts: seq<Tree>, k: nat)
    requires k <= |ts|
  {
    && PoolsOk(r) && st.buf <= r.buf
    && |r.stack| == |st.stack| + k && r.stack[..|st.stack|] == st.stack
    && forall i :: 0 <= i < k ==> Holds(r.buf, r.stack[|st.stack| + i], Canon(ts[i]))
  }

  /** k more keys, each with its value, on the stack. */
  ghost predicate PushedEntries(st: Builder, r: Builder, es: seq<Entry>, k: nat)
    requires k <= |es|
  {
    && PoolsOk(r) && st.buf <= r.buf
    && |r.stack| == |st.stack| + 2 * k && r.stack[..|st.stack|] == st.stack
    && (forall i :: 0 <= i < k ==> HoldsKey(r.buf, r.stack[|st.stack| + 2 * i], es[i].key))
    && (forall i :: 0 <= i < k ==> Holds(r.buf, r.stack[|st.stack| + 2 * i + 1], Canon(es[i].value)))
  }

  lemma ScalarPushed(st: Builder, t: Tree)
    requires PoolsOk(st) && WellFormed(t) && (t.NullT? || t.BoolT? || t.IntT? || t.UIntT?)
    ensures Pushed(st, Emit(st, t), t)
  {
    hide KeysOk, StringsOk, WidthI, WidthU;
  }

  lemma EndVectorPushed(st: Builder, r: Builder, ts: seq<Tree>)
    requires PushedAll(st, r, ts, |ts|)
    requires |EndVector(r, |st.stack|).buf| < FLEX_LIMIT
    ensures Pushed(st, EndVector(r, |st.stack|), Canon(VectorT(ts)))
  {
    hide Holds, CreateVector, KeysOk, StringsOk;
    EndVectorGrows(r, |st.stack|);
    var vals := r.stack[|st.stack|..];
    assert Canon(VectorT(ts)).VectorT?;
    var cs := Canon(VectorT(ts)).elems;
    assert AllHold(r.buf, vals, cs);
    VectorDenotes(r.buf, r.minWidth, vals, cs);
    PoolsGrow(r, CreateVector(r.buf, r.minWidth, vals, 1, false, None).0);
  }

  lemma NamesOnStack(st: Builder, r: Builder, es: seq<Entry>)
    requires PushedEntries(st, r, es, |es|)
    ensures StackNames(r, |st.stack|) == Names(es)
  {
    hide Holds;
    forall i | 0 <= i < |es| ensures StackNames(r, |st.stack|)[i] == es[i].key {
      assert HoldsKey(r.buf, r.stack[|st.stack| + 2 * i], es[i].key);
    }
  }

  /** Sorting by the names on the stack brings keys and values into canonical order. */
  lemma PickedHold(st: Builder, r: Builder, es: seq<Entry>)
    requires PushedEntries(st, r, es, |es|)
    ensures var order := SortOrder(Names(es), |es|);
            var cs := Canon(MapT(es)).entries;
            && AllHoldKeys(r.buf, Pick(r.stack, |st.stack|, 0, order), cs)
            && AllHold(r.buf, Pick(r.stack, |st.stack|, 1, order), Values(cs))
  {
    PickedKeys(st, r, es);
    PickedValues(st, r, es);
  }

  lemma PickedKeys(st: Builder, r: Builder, es: seq<Entry>)
    requires PushedEntries(st, r, es, |es|)
    ensures AllHoldKeys(r.buf, Pick(r.stack, |st.stack|, 0, SortOrder(Names(es), |es|)), Canon(MapT(es)).entries)
  {
    hide Holds, HoldsKey, KeysOk, StringsOk, SortOrder, Names;
    var order := SortOrder(Names(es), |es|);
    var ks := Pick(r.stack, |st.stack|, 0, order);
    var cs := Canon(MapT(es)).entries;
    forall i | 0 <= i < |es| ensures HoldsKey(r.buf, ks[i], cs[i].key) {
      assert HoldsKey(r.buf, r.stack[|st.stack| + 2 * order[i]], es[order[i]].key);
    }
  }

  lemma PickedValues(st: Builder, r: Builder, es: seq<Entry>)
    requires PushedEntries(st, r, es, |es|)
    ensures AllHold(r.buf, Pick(r.stack, |st.stack|, 1, SortOrder(Names(es), |es|)), Values(Canon(MapT(es)).entries))
  {
    hide Holds, HoldsKey, KeysOk, StringsOk, SortOrder, Names;
    var order := SortOrder(Names(es), |es|);
    var vs := Pick(r.stack, |st.stack|, 1, order);
    var cs := Canon(MapT(es)).entries;
    forall i | 0 <= i < |es| ensures Holds(r.buf, vs[i], Values(cs)[i]) {
      assert Holds(r.buf, r.stack[|st.stack| + 2 * order[i] + 1], Canon(es[order[i]].value));
    }
  }

  lemma EndMapPushed(st: Builder, r: Builder, es: seq<Entry>, m: Builder)
    requires |r.stack| == |st.stack| + 2 * |es| && (|r.stack| - |st.stack|) % 2 == 0
    requires m == EndMap(r, |st.stack|) && |m.buf| < FLEX_LIMIT
    requires PushedEntries(st, r, es, |es|)
    ensures Pushed(st, m, Canon(MapT(es)))
  {
    assert Canon(MapT(es)).MapT?;
    hide Holds, HoldsKey, CreateMap, KeysOk, StringsOk, SortOrder, StackNames, Canon, Names, Pick;
    NamesOnStack(st, r, es);
    PickedHold(st, r, es);
    var order := SortOrder(Names(es), |es|);
    var ks, vs := Pick(r.stack, |st.stack|, 0, order), Pick(r.stack, |st.stack|, 1, order);
    MapPushed(st, r, ks, vs, es);
  }

  lemma MapPushed(st: Builder, r: Builder, ks: seq<Value>, vs: seq<Value>, es: seq<Entry>)
    requires PoolsOk(r) && st.buf <= r.buf && |st.stack| <= |r.stack| && r.stack[..|st.stack|] == st.stack
    requires Canon(MapT(es)).MapT?
    requires AllHoldKeys(r.buf, ks, Canon(MapT(es)).entries) && AllHold(r.buf, vs, Values(Canon(MapT(es)).entries))
    requires |CreateMap(r.buf, r.minWidth, ks, vs).0| < FLEX_LIMIT
    ensures var (b, v) := CreateMap(r.buf, r.minWidth, ks, vs);
            Pushed(st, Push(r.(buf := b, stack := r.stack[..|st.stack|]), v), Canon(MapT(es)))
  {
    hide Holds, AllHold, AllHoldKeys, CreateMap, KeysOk, StringsOk, Canon;
    MapGrows(r.buf, r.minWidth, ks, vs);
    KeysCount(r.buf, ks, Canon(MapT(es)).entries);
    MapDenotes(r.buf, r.minWidth, ks, vs, Canon(MapT(es)).entries);
    PoolsGrow(r, CreateMap(r.buf, r.minWidth, ks, vs).0);
  }

  lemma KeysCount(b: bytes, ks: seq<Value>, es: seq<Entry>)
    requires AllHoldKeys(b, ks, es)
    ensures |ks| == |es|
  {
  }

  /** Emitting a tree pushes one value that stands for its canonical form. */
  lemma {:induction false} EmitPushed(st: Builder, t: Tree)
    requires PoolsOk(st) && WellFormed(t) && |Emit(st, t).buf| < FLEX_LIMIT
    ensures Pushed(st, Emit(st, t), Canon(t))
    decreases t, 0
  {
    hide PoolsOk, Pushed, PushedAll, PushedEntries, EndVector, EndMap, String, Blob;
    match t
    case StringT(s) => StringPushed(st, s);
    case BlobT(s) => BlobPushed(st, s);
    case VectorT(elems) =>
      var r := EmitAll(st, elems, |elems|);
      EndVectorGrows(r, |st.stack|);
      EmitAllPushed(st, elems, |elems|);
      EndVectorPushed(st, r, elems);
    case MapT(entries) =>
      var r := EmitEntries(st, entries, |entries|);
      EndMapGrows(r, |st.stack|);
      EmitEntriesPushed(st, entries, |entries|);
      EndMapPushed(st, r, entries, EndMap(r, |st.stack|));
    case _ => ScalarPushed(st, t);
  }

  lemma {:induction false} EmitAllPushed(st: Builder, ts: seq<Tree>, k: nat)
    requires k <= |ts| && forall i :: 0 <= i < |ts| ==> WellFormed(ts[i])
    requires PoolsOk(st) && |EmitAll(st, ts, k).buf| < FLEX_LIMIT
    ensures PushedAll(st, EmitAll(st, ts, k), ts, k)
    decreases ts, 0, k
  {
    hide Emit, Holds, KeysOk, StringsOk, Canon, WellFormed;
    if k > 0 {
      var before, r := EmitAll(st, ts, k - 1), EmitAll(st, ts, k);
      EmitGrows(before, ts[k - 1]);
      EmitAllPushed(st, ts, k - 1);
      EmitPushed(before, ts[k - 1]);
      forall i | 0 <= i < k ensures Holds(r.buf, r.stack[|st.stack| + i], Canon(ts[i])) {
        if i < k - 1 {
          assert r.stack[..|before.stack|][|st.stack| + i] == before.stack[|st.stack| + i];
          HoldsGrows(before.buf, r.buf, before.stack[|st.stack| + i], Canon(ts[i]));
        }
      }
      assert r.stack[..|st.stack|] == r.stack[..|before.stack|][..|st.stack|];
    }
  }

  lemma {:induction false} EmitEntriesPushed(st: Builder, es: seq<Entry>, k: nat)
    requires k <= |es| && forall i :: 0 <= i < |es| ==> WellFormed(es[i].value)
    requires forall i :: 0 <= i < |es| ==> NoZero(es[i].key)
    requires PoolsOk(st) && |EmitEntries(st, es, k).buf| < FLEX_LIMIT
    ensures PushedEntries(st, EmitEntries(st, es, k), es, k)
    decreases es, 0, k
  {
    hide Emit, Holds, HoldsKey, KeysOk, StringsOk, Canon, WellFormed, Key;
    if k > 0 {
      var before, r := EmitEntries(st, es, k - 1), EmitEntries(st, es, k);
      var keyed := Key(before, es[k - 1].key);
      KeyGrowsBuffer(before, es[k - 1].key);
      EmitGrows(keyed, es[k - 1].value);
      EmitEntriesPushed(st, es, k - 1);
      KeyPushed(before, es[k - 1].key);
      EmitPushed(keyed, es[k - 1].value);
      EntriesExtended(st, before, keyed, r, es, k);
    }
  }

  /** One more key and value on top leave the earlier ones standing. */
  lemma EntriesExtended(st: Builder, before: Builder, keyed: Builder, r: Builder, es: seq<Entry>, k: nat)
    requires 0 < k <= |es| && PushedEntries(st, before, es, k - 1)
    requires before.buf <= keyed.buf && |keyed.stack| == |before.stack| + 1
             && keyed.stack[..|before.stack|] == before.stack
    requires HoldsKey(keyed.buf, keyed.stack[|before.stack|], es[k - 1].key)
    requires Pushed(keyed, r, Canon(es[k - 1].value))
    ensures PushedEntries(st, r, es, k)
  {
    hide Holds, HoldsKey, KeysOk, StringsOk, Canon, CString;
    assert r.stack[..|keyed.stack|][..|before.stack|] == before.stack;
    assert r.stack[..|st.stack|] == before.stack[..|st.stack|];
    var n := |st.stack|;
    assert |before.stack| == n + 2 * (k - 1);
    assert r.stack[n + 2 * (k - 1)] == keyed.stack[n + 2 * (k - 1)];
    forall i | 0 <= i < k ensures HoldsKey(r.buf, r.stack[n + 2 * i], es[i].key) {
      if i < k - 1 {
        assert r.stack[n + 2 * i] == before.stack[n + 2 * i];
        HoldsKeyGrows(before.buf, r.buf, before.stack[n + 2 * i], es[i].key);
      } else {
        HoldsKeyGrows(keyed.buf, r.buf, keyed.stack[n + 2 * i], es[i].key);
      }
    }
    forall i | 0 <= i < k ensures Holds(r.buf, r.stack[n + 2 * i + 1], Canon(es[i].value)) {
      if i < k - 1 {
        assert r.stack[n + 2 * i + 1] == before.stack[n + 2 * i + 1];
        HoldsGrows(before.buf, r.buf, before.stack[n + 2 * i + 1], Canon(es[i].value));
      }
    }
  }

  lemma HoldsKeyGrows(b: bytes, c: bytes, v: Value, key: bytes)
    requires b <= c && HoldsKey(b, v, key)
    ensures HoldsKey(c, v, key)
  {
    CStringGrows(b, c, v.u);
  }

  // ---------- Finish ----------

  /** The root slot, and its type and width behind it. */
  lemma FinishLayout(b: bytes, root: Value, bw: Width)
    ensures var w := ByteWidth(bw);
            var p := |Align(b, w)|;
            var f := WriteAny(Align(b, w), root, w) + [StoredPackedType(root, 0)] + [w];
            && b <= f && Load(f, p, w) == Ok(Unsigned(SlotValue(root, p), w))
            && FlexReader.GetRoot(f) == Ok(Packed(p, w, StoredPackedType(root, 0)))
  {
    hide Load, WriteAny, SlotValue, Unsigned, StoredPackedType, Packed, Padding;
    var w := ByteWidth(bw);
    var a := Align(b, w);
    assert b <= a;
    var c := WriteAny(a, root, w);
    var f := c + [StoredPackedType(root, 0)] + [w];
    WriteAnyLoads(a, root, w);
    LoadGrows(c, f, |a|, w);
    OneByte(f, |f| - 1);
    OneByte(f, |f| - 2);
  }

  /** The stack's only value, written as the root, is what GetRoot finds. */
  lemma FinishReads(st: Builder, t: Tree)
    requires |st.stack| == 1 && Holds(st.buf, st.stack[0], t) && |st.buf| < FLEX_LIMIT
    ensures var f := Finish(st);
            FlexReader.GetRoot(f).Ok? && Denotes(f, FlexReader.GetRoot(f).value, t)
  {
    hide Holds, Denotes, WriteAny, Load, SlotValue, Unsigned, StoredPackedType, Fits, Packed, FlexReader.GetRoot,
         Align, ElemWidth;
    var root := st.stack[0];
    var bw := ElemWidth(root, |st.buf|, 0);
    FinishLayout(st.buf, root, bw);
    RootFits(st.buf, root, t);
    RootType(root, |st.buf|, t, st.buf);
    SlotDenotes(st.buf, Finish(st), root, t, |Align(st.buf, ByteWidth(bw))|, bw);
  }

  lemma RootFits(b: bytes, root: Value, t: Tree)
    requires Holds(b, root, t) && |b| < FLEX_LIMIT
    ensures var bw := ElemWidth(root, |b|, 0);
            && SlotPosition(|b|, 0, bw) == |Align(b, ByteWidth(bw))|
            && Fits(root, |Align(b, ByteWidth(bw))|, bw)
  {
    hide Holds, Fits, ElemWidth;
    HoldsPlaced(b, root, t);
    CoveredFits(root, |b|, 0, 0, ElemWidth(root, |b|, 0));
  }

  /** The root's packed type is the one its slot would have in a vector of the root's width. */
  lemma RootType(root: Value, size: nat, t: Tree, b: bytes)
    requires Holds(b, root, t)
    ensures StoredPackedType(root, 0) == StoredPackedType(root, ElemWidth(root, size, 0))
  {
  }

  /**
   The round trip: whatever tree is emitted through an empty builder, with any sharing and
   any forced width, reading the root of the finished buffer recursively gives the tree back
   with every map in key order.
   */
  lemma EmittedTreeReadsBack(t: Tree, shareKeys: bool, shareStrings: bool, minWidth: Width)
    requires WellFormed(t)
    requires |Emit(Empty(shareKeys, shareStrings, minWidth), t).buf| < FLEX_LIMIT
    ensures var f := Finish(Emit(Empty(shareKeys, shareStrings, minWidth), t));
            && FlexReader.GetRoot(f).Ok?
            && Denotes(f, FlexReader.GetRoot(f).value, Canon(t))
            && ReadTree(f, FlexReader.GetRoot(f).value, Height(Canon(t))) == Some(Canon(t))
  {
    hide Finish, Emit, Canon, Denotes, ReadTree, Holds;
    var st := Empty(shareKeys, shareStrings, minWidth);
    EmitPushed(st, t);
    var r := Emit(st, t);
    FinishReads(r, Canon(t));
    var f := Finish(r);
    DenotesReads(f, FlexReader.GetRoot(f).value, Canon(t), Height(Canon(t)));
  }
}
