/**
 Writing a tree with the FlexBuffers Builder: the calls a caller makes, and that what they
 leave in memory reads back as the tree.
 */
module FlexWriter {
  import opened Bits
  import opened Bytes
  import opened Wrappers
  import opened FlexWidths
  import opened FlexReader
  import M = FlexModel
  import opened FlexVectors
  import opened FlexEmit
  import opened FlexRoundTrip
  import opened FlexBuilder

  lemma {:induction false} EmitAllMonotone(st: M.Builder, ts: seq<Tree>, j: nat, k: nat)
    requires j <= k <= |ts| && forall i :: 0 <= i < |ts| ==> WellFormed(ts[i])
    ensures EmitAll(st, ts, j).buf <= EmitAll(st, ts, k).buf
    decreases k
  {
    hide Emit, WellFormed;
    if j < k {
      EmitAllMonotone(st, ts, j, k - 1);
      EmitGrows(EmitAll(st, ts, k - 1), ts[k - 1]);
    }
  }

  lemma {:induction false} EmitEntriesMonotone(st: M.Builder, es: seq<Entry>, j: nat, k: nat)
    requires j <= k <= |es| && forall i :: 0 <= i < |es| ==> WellFormed(es[i].value)
    ensures EmitEntries(st, es, j).buf <= EmitEntries(st, es, k).buf
    decreases k
  {
    hide Emit, WellFormed, M.Key;
    if j < k {
      EmitEntriesMonotone(st, es, j, k - 1);
      KeyGrowsBuffer(EmitEntries(st, es, k - 1), es[k - 1].key);
      EmitGrows(M.Key(EmitEntries(st, es, k - 1), es[k - 1].key), es[k - 1].value);
    }
  }

  /** Emits a tree: children between the start and the end of their parent. */
  method EmitTree(out: Builder, t: Tree)
    requires out.Valid() && PoolsOk(out.Model()) && WellFormed(t) && |Emit(out.Model(), t).buf| < FLEX_LIMIT
    modifies out`buf, out`stack, out`keyPool, out`stringPool
    ensures out.Valid() && out.Model() == Emit(old(out.Model()), t)
    decreases t, 1
  {
    hide PoolsOk, Builder.Valid, M.String, M.Blob, M.EndVector, FlexEmit.EmitMap, WidthI, WidthU;
    SmallBuffer(out.Model(), t);
    match t
    case NullT => out.Null();
    case BoolT(x) => out.Bool(x);
    case IntT(i) => out.Int(i);
    case UIntT(u) => out.UInt(u);
    case StringT(s) => out.String(s);
    case BlobT(s) => out.Blob(s);
    case VectorT(elems) => EmitVector(out, elems);
    case MapT(entries) => EmitMap(out, entries);
  }

  lemma SmallBuffer(st: M.Builder, t: Tree)
    requires WellFormed(t) && |Emit(st, t).buf| < FLEX_LIMIT
    ensures |st.buf| < WORD
    ensures t.StringT? ==> |t.s| < WORD
    ensures t.BlobT? ==> |t.s| < WORD
  {
    hide Emit;
    EmitGrows(st, t);
  }

  method EmitVector(out: Builder, elems: seq<Tree>)
    requires out.Valid() && PoolsOk(out.Model()) && forall i :: 0 <= i < |elems| ==> WellFormed(elems[i])
    requires |Emit(out.Model(), VectorT(elems)).buf| < FLEX_LIMIT
    modifies out`buf, out`stack, out`keyPool, out`stringPool
    ensures out.Valid() && out.Model() == Emit(old(out.Model()), VectorT(elems))
    decreases elems, 1
  {
    hide PoolsOk, Builder.Valid, M.EndVector, WellFormed, EmitAll;
    var start := |out.stack|;
    VectorRoom(out.Model(), elems);
    EmitElements(out, elems);
    out.EndVector(start);
  }

  method EmitElements(out: Builder, elems: seq<Tree>)
    requires out.Valid() && PoolsOk(out.Model()) && forall i :: 0 <= i < |elems| ==> WellFormed(elems[i])
    requires |EmitAll(out.Model(), elems, |elems|).buf| < FLEX_LIMIT
    modifies out`buf, out`stack, out`keyPool, out`stringPool
    ensures out.Valid() && out.Model() == EmitAll(old(out.Model()), elems, |elems|)
    decreases elems, 0
  {
    hide PoolsOk, Builder.Valid, Emit, WellFormed, PushedAll;
    ghost var st := out.Model();
    for k := 0 to |elems|
      invariant out.Valid() && out.Model() == EmitAll(st, elems, k)
    {
      EmitAllMonotone(st, elems, k, |elems|);
      EmitAllMonotone(st, elems, k + 1, |elems|);
      EmitAllPushed(st, elems, k);
      PushedPools(st, out.Model(), elems, k);
      EmitTree(out, elems[k]);
    }
  }

  lemma PushedPools(st: M.Builder, r: M.Builder, ts: seq<Tree>, k: nat)
    requires k <= |ts| && PushedAll(st, r, ts, k)
    ensures PoolsOk(r)
  {
  }

  lemma VectorRoom(st: M.Builder, elems: seq<Tree>)
    requires forall i :: 0 <= i < |elems| ==> WellFormed(elems[i])
    requires |Emit(st, VectorT(elems)).buf| < FLEX_LIMIT
    ensures Emit(st, VectorT(elems)) == M.EndVector(EmitAll(st, elems, |elems|), |st.stack|)
    ensures |EmitAll(st, elems, |elems|).buf| < FLEX_LIMIT
  {
    hide M.EndVector;
    EndVectorGrows(EmitAll(st, elems, |elems|), |st.stack|);
  }

  method EmitMap(out: Builder, entries: seq<Entry>)
    requires out.Valid() && PoolsOk(out.Model())
    requires forall i :: 0 <= i < |entries| ==> WellFormed(entries[i].value)
    requires forall i :: 0 <= i < |entries| ==> NoZero(entries[i].key)
    requires |FlexEmit.EmitMap(out.Model(), entries).buf| < FLEX_LIMIT
    modifies out`buf, out`stack, out`keyPool, out`stringPool
    ensures out.Valid() && out.Model() == FlexEmit.EmitMap(old(out.Model()), entries)
    decreases entries, 1
  {
    hide PoolsOk, Builder.Valid, M.EndMap, EmitEntries, KeysInPlace, WellFormed, NoZero, PushedEntries;
    ghost var st := out.Model();
    var start := |out.stack|;
    MapRoomFor(st, entries);
    EmitPairs(out, entries);
    EmitEntriesPushed(st, entries, |entries|);
    PushedKeysInPlace(st, out.Model(), entries);
    out.EndMap(start);
  }

  method EmitPairs(out: Builder, entries: seq<Entry>)
    requires out.Valid() && PoolsOk(out.Model())
    requires forall i :: 0 <= i < |entries| ==> WellFormed(entries[i].value)
    requires forall i :: 0 <= i < |entries| ==> NoZero(entries[i].key)
    requires |EmitEntries(out.Model(), entries, |entries|).buf| < FLEX_LIMIT
    modifies out`buf, out`stack, out`keyPool, out`stringPool
    ensures out.Valid() && out.Model() == EmitEntries(old(out.Model()), entries, |entries|)
    decreases entries, 0
  {
    hide PoolsOk, Builder.Valid, Emit, M.Key, WellFormed, NoZero, PushedEntries;
    ghost var st := out.Model();
    for k := 0 to |entries|
      invariant out.Valid() && out.Model() == EmitEntries(st, entries, k)
    {
      EmitEntriesMonotone(st, entries, k, |entries|);
      EmitEntriesMonotone(st, entries, k + 1, |entries|);
      EmitEntriesPushed(st, entries, k);
      EntryPools(st, out.Model(), entries, k);
      out.Key(entries[k].key);
      EmitTree(out, entries[k].value);
    }
  }

  lemma MapRoomFor(st: M.Builder, es: seq<Entry>)
    requires forall i :: 0 <= i < |es| ==> WellFormed(es[i].value)
    requires |FlexEmit.EmitMap(st, es).buf| < FLEX_LIMIT
    ensures |EmitEntries(st, es, |es|).buf| < FLEX_LIMIT
  {
    hide M.EndMap, EmitEntries, WellFormed;
    EndMapGrows(EmitEntries(st, es, |es|), |st.stack|);
  }

  lemma EntryPools(st: M.Builder, r: M.Builder, es: seq<Entry>, k: nat)
    requires k < |es| && PushedEntries(st, r, es, k) && NoZero(es[k].key)
    ensures PoolsOk(M.Key(r, es[k].key))
  {
    hide M.Key, KeysOk, StringsOk, Holds, HoldsKey;
    KeyPushed(r, es[k].key);
  }

  lemma PushedKeysInPlace(st: M.Builder, r: M.Builder, es: seq<Entry>)
    requires PushedEntries(st, r, es, |es|)
    ensures KeysInPlace(r.stack, |st.stack|)
  {
    hide KeysOk, StringsOk, Holds, HoldsKey;
    forall k: nat | |st.stack| + 2 * k < |r.stack| ensures r.stack[|st.stack| + 2 * k].typ == FBT_KEY {
      assert HoldsKey(r.buf, r.stack[|st.stack| + 2 * k], es[k].key);
      KeyTyped(r.buf, r.stack[|st.stack| + 2 * k], es[k].key);
    }
  }

  /**
   From tree to bytes and back: the bytes a Builder leaves for a tree, under any flags, are
   read by the recursive reader as that tree, every map in key order.
   */
  method WriteTree(t: Tree, shareKeys: bool, shareStrings: bool, minWidth: Width) returns (b: bytes)
    requires WellFormed(t)
    requires |Emit(M.Empty(shareKeys, shareStrings, minWidth), t).buf| < FLEX_LIMIT
    ensures FlexReader.GetRoot(b).Ok?
    ensures ReadTree(b, FlexReader.GetRoot(b).value, Height(Canon(t))) == Some(Canon(t))
  {
    hide Emit, M.Finish, Canon, Builder.Valid, ReadTree, Denotes;
    EmittedTreeReadsBack(t, shareKeys, shareStrings, minWidth);
    var out := new Builder(shareKeys, shareStrings, minWidth);
    EmitTree(out, t);
    out.Finish();
    b := out.buf;
  }
}
