/**
 Whole trees through the FlexBuffers builder: what the calls that emit a tree are, and the
 tree a reader gets back, in which every map is in key order.
 */
module FlexEmit {
  import opened Bits
  import opened Bytes
  import opened StringOrder
  import opened FlexWidths
  import opened FlexReader
  import opened FlexModel
  import opened FlexOrder

  /** A key as a C string can carry it. */
  predicate NoZero(s: bytes) {
    forall i :: 0 <= i < |s| ==> s[i] != 0
  }

  function Names(es: seq<Entry>): (r: seq<bytes>)
    ensures |r| == |es|
  {
    seq(|es|, i requires 0 <= i < |es| => es[i].key)
  }

  /**
   The inputs the builder promises to keep: 64-bit integers and lengths, and maps with distinct keys
   free of zeros.
   */
  predicate WellFormed(t: Tree)
    decreases t
  {
    match t
    case IntT(i) => IsInt64(i)
    case UIntT(u) => u < WORD
    case StringT(s) => |s| < WORD
    case BlobT(s) => |s| < WORD
    case VectorT(elems) => forall i :: 0 <= i < |elems| ==> WellFormed(elems[i])
    case MapT(entries) =>
      && Distinct(Names(entries))
      && (forall i :: 0 <= i < |entries| ==> NoZero(entries[i].key))
      && (forall i :: 0 <= i < |entries| ==> WellFormed(entries[i].value))
    case _ => true
  }

  /** The calls a caller makes for a tree: children between the starts and ends of their parents. */
  function Emit(st: Builder, t: Tree): (r: Builder)
    requires WellFormed(t)
    ensures |r.stack| == |st.stack| + 1
    decreases t, 0
  {
    hide String, Blob, EndVector;
    match t
    case NullT => Null(st)
    case BoolT(x) => Bool(st, x)
    case IntT(i) => Int(st, i)
    case UIntT(u) => UInt(st, u)
    case StringT(s) => String(st, s)
    case BlobT(s) => Blob(st, s)
    case VectorT(elems) => EndVector(EmitAll(st, elems, |elems|), |st.stack|)
    case MapT(entries) => EmitMap(st, entries)
  }

  /** The first k of the elements. */
  function EmitAll(st: Builder, ts: seq<Tree>, k: nat): (r: Builder)
    requires k <= |ts| && forall i :: 0 <= i < |ts| ==> WellFormed(ts[i])
    ensures |r.stack| == |st.stack| + k
    decreases ts, 0, k
  {
    if k == 0 then st else Emit(EmitAll(st, ts, k - 1), ts[k - 1])
  }

  /** The first k of the entries, each a key and a value. */
  function EmitEntries(st: Builder, es: seq<Entry>, k: nat): (r: Builder)
    requires k <= |es| && forall i :: 0 <= i < |es| ==> WellFormed(es[i].value)
    ensures |r.stack| == |st.stack| + 2 * k
    decreases es, 0, k
  {
    hide Key;
    if k == 0 then st else Emit(Key(EmitEntries(st, es, k - 1), es[k - 1].key), es[k - 1].value)
  }

  function EmitMap(st: Builder, es: seq<Entry>): (r: Builder)
    requires forall i :: 0 <= i < |es| ==> WellFormed(es[i].value)
    ensures |r.stack| == |st.stack| + 1
    decreases es, 1
  {
    hide EndMap;
    EndMap(EmitEntries(st, es, |es|), |st.stack|)
  }

  /** The same tree with every map in key order. */
  function Canon(t: Tree): Tree
    decreases t
  {
    match t
    case VectorT(elems) => VectorT(seq(|elems|, i requires 0 <= i < |elems| => Canon(elems[i])))
    case MapT(entries) =>
      var order := SortOrder(Names(entries), |entries|);
      MapT(seq(|entries|, i requires 0 <= i < |entries| =>
        Entry(entries[order[i]].key, Canon(entries[order[i]].value))))
    case _ => t
  }

  predicate Increasing(es: seq<Entry>) {
    forall i, j :: 0 <= i < j < |es| ==> StringLessThan(es[i].key, es[j].key)
  }

  /** Every entry, in canonical form, is there, and nothing else is. */
  predicate SameEntries(es: seq<Entry>, cs: seq<Entry>) {
    && (forall e :: e in es ==> Entry(e.key, Canon(e.value)) in cs)
    && (forall j :: 0 <= j < |cs| ==> exists i :: 0 <= i < |es| && cs[j] == Entry(es[i].key, Canon(es[i].value)))
  }

  /** Canonical form keeps every entry, adds none, and its keys strictly increase. */
  lemma CanonOrdered(es: seq<Entry>)
    requires Distinct(Names(es))
    ensures var r := Canon(MapT(es)).entries;
            |r| == |es| && SameEntries(es, r) && Increasing(r)
  {
    hide StringLessThan;
    var names := Names(es);
    var order := SortOrder(names, |es|);
    var r := Canon(MapT(es)).entries;
    SortOrderSorts(names, |es|);
    forall e | e in es ensures Entry(e.key, Canon(e.value)) in r {
      var k :| 0 <= k < |es| && es[k] == e;
      assert k in order;
      var j :| 0 <= j < |order| && order[j] == k;
      assert r[j] == Entry(e.key, Canon(e.value));
    }
    forall i, j | 0 <= i < j < |r| ensures StringLessThan(r[i].key, r[j].key) {
      StrictlySorted(names, order, i, j);
      assert r[i].key == names[order[i]] && r[j].key == names[order[j]];
    }
    forall j | 0 <= j < |r| ensures exists i :: 0 <= i < |es| && r[j] == Entry(es[i].key, Canon(es[i].value)) {
      assert r[j] == Entry(es[order[j]].key, Canon(es[order[j]].value));
    }
  }
}
