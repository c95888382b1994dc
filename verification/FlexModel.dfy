/**
 The FlexBuffers builder (flexbuffers.h, class Builder) as functions on a growing byte
 buffer and a stack of values: keys and strings with their pools, blobs, vectors, sorted
 maps, and Finish.
 */
module FlexModel {
  import opened Bits
  import opened Bytes
  import opened Wrappers
  import opened StringOrder
  import opened FlexWidths
  import opened FlexReader

  /** A stack entry: an inline scalar, or the absolute position of data already in the buffer. */
  datatype Value = Value(u: int, typ: nat, minWidth: Width)

  datatype Builder = Builder(
    buf: bytes,
    stack: seq<Value>,
    keyPool: seq<nat>,
    stringPool: seq<(nat, nat)>,
    shareKeys: bool,
    shareStrings: bool,
    minWidth: Width)

  function Empty(shareKeys: bool, shareStrings: bool, minWidth: Width): Builder {
    Builder([], [], [], [], shareKeys, shareStrings, minWidth)
  }

  // ---------- Values ----------

  predicate IsInline(typ: nat) {
    typ <= FBT_FLOAT || typ == FBT_BOOL
  }

  function MaxWidth(a: Width, b: Width): Width { if a < b then b else a }

  function ElemWidth(v: Value, size: nat, index: nat): Width {
    if IsInline(v.typ) then v.minWidth else OffsetWidth(size, index, v.u, 0)
  }

  function StoredWidth(v: Value, parent: Width): Width {
    if IsInline(v.typ) then MaxWidth(v.minWidth, parent) else v.minWidth
  }

  function StoredPackedType(v: Value, parent: Width): byte {
    PackedType(StoredWidth(v, parent), v.typ) % 0x100
  }

  // ---------- Writing ----------

  function Align(b: bytes, w: nat): bytes
    requires w > 0
  {
    b + Zeros(Padding(|b|, w))
  }

  /** The low `w` bytes of a 64-bit value. */
  function Write(b: bytes, val: int, w: nat): bytes {
    b + ToLE(Unsigned(val, w), w)
  }

  function WriteOffset(b: bytes, o: int, w: nat): bytes {
    Write(b, |b| - o, w)
  }

  function WriteAny(b: bytes, v: Value, w: nat): bytes {
    if IsInline(v.typ) then Write(b, v.u, w) else WriteOffset(b, v.u, w)
  }

  function WriteElements(b: bytes, vals: seq<Value>, w: nat): bytes
    decreases |vals|
  {
    if vals == [] then b
    else
      var n := |vals| - 1;
      WriteAny(WriteElements(b, vals[..n], w), vals[n], w)
  }

  function WriteTypes(b: bytes, vals: seq<Value>, bw: Width): bytes
    decreases |vals|
  {
    if vals == [] then b
    else
      var n := |vals| - 1;
      WriteTypes(b, vals[..n], bw) + [StoredPackedType(vals[n], bw)]
  }

  // ---------- Scalars, keys, strings, blobs ----------

  function Push(st: Builder, v: Value): Builder {
    st.(stack := st.stack + [v])
  }

  function Null(st: Builder): Builder { Push(st, Value(0, FBT_NULL, 0)) }

  function Bool(st: Builder, x: bool): Builder { Push(st, Value(if x then 1 else 0, FBT_BOOL, 0)) }

  function Int(st: Builder, i: int): Builder
    requires IsInt64(i)
  {
    Push(st, Value(i, FBT_INT, WidthI(i)))
  }

  function UInt(st: Builder, u: nat): Builder
    requires u < WORD
  {
    Push(st, Value(u, FBT_UINT, WidthU(u)))
  }

  /** The pooled key with the same characters as the one at `p`. */
  function FindKey(b: bytes, pool: seq<nat>, p: nat): Option<nat> {
    if pool == [] then None
    else if Strcmp(b, pool[0], b, p) == Ok(0) then Some(pool[0])
    else FindKey(b, pool[1..], p)
  }

  function Key(st: Builder, s: bytes): (r: Builder)
    ensures |r.stack| == |st.stack| + 1
  {
    var loc := |st.buf|;
    var b := st.buf + s + [0];
    if !st.shareKeys then Push(st.(buf := b), Value(loc, FBT_KEY, 0))
    else
      match FindKey(b, st.keyPool, loc)
      case Some(p) => Push(st, Value(p, FBT_KEY, 0))
      case None => Push(st.(buf := b, keyPool := st.keyPool + [loc]), Value(loc, FBT_KEY, 0))
  }

  /** Size, data and `trailing` zero bytes, behind alignment padding; with the value that refers to the data. */
  function CreateBlob(b: bytes, s: bytes, trailing: nat, typ: nat): (bytes, Value)
  {
    var bw := SizeWidth(|s|);
    var b1 := Write(Align(b, ByteWidth(bw)), |s|, ByteWidth(bw));
    (b1 + s + Zeros(trailing), Value(|b1|, typ, bw))
  }

  function Blob(st: Builder, s: bytes): (r: Builder)
    ensures |r.stack| == |st.stack| + 1
  {
    var (b, v) := CreateBlob(st.buf, s, 0, FBT_BLOB);
    Push(st.(buf := b), v)
  }

  /** StringOffsetCompare: memcmp over the shorter string and its terminator, then the lengths. */
  predicate SpanLess(b: bytes, x: (nat, nat), y: (nat, nat)) {
    var m := Min(x.1, y.1) + 1;
    && x.0 + m <= |b| && y.0 + m <= |b|
    && var c := Memcmp(b[x.0..], b[y.0..], m);
    c < 0 || (c == 0 && x.1 < y.1)
  }

  function FindString(b: bytes, pool: seq<(nat, nat)>, x: (nat, nat)): Option<nat> {
    if pool == [] then None
    else if !SpanLess(b, pool[0], x) && !SpanLess(b, x, pool[0]) then Some(pool[0].0)
    else FindString(b, pool[1..], x)
  }

  function String(st: Builder, s: bytes): (r: Builder)
    ensures |r.stack| == |st.stack| + 1
  {
    var (b, v) := CreateBlob(st.buf, s, 1, FBT_STRING);
    if !st.shareStrings then Push(st.(buf := b), v)
    else
      match FindString(b, st.stringPool, (v.u as nat, |s|))
      case Some(p) => Push(st, v.(u := p))
      case None => Push(st.(buf := b, stringPool := st.stringPool + [(v.u as nat, |s|)]), v)
  }

  // ---------- Vectors ----------

  /** The widest of `bw` and the elements' widths, each estimated `step` slots behind the one before. */
  function VectorWidth(bw: Width, size: nat, vals: seq<Value>, step: nat, prefix: nat): Width
    decreases |vals|
  {
    if vals == [] then bw
    else
      var n := |vals| - 1;
      MaxWidth(VectorWidth(bw, size, vals[..n], step, prefix), ElemWidth(vals[n], size, n * step + prefix))
  }

  /** The width of the whole vector, and how many slots precede its elements. */
  function LayoutWidth(b: bytes, minWidth: Width, vals: seq<Value>, step: nat, keys: Option<Value>): Width
  {
    var bw := MaxWidth(minWidth, SizeWidth(|vals|));
    match keys
    case None => VectorWidth(bw, |b|, vals, step, 1)
    case Some(k) => VectorWidth(MaxWidth(bw, ElemWidth(k, |b|, 0)), |b|, vals, step, 3)
  }

  /** The prefix of a map: where its keys are and how wide they are stored. */
  function WriteKeys(b: bytes, keys: Option<Value>, w: nat): bytes {
    match keys
    case None => b
    case Some(k) => Write(WriteOffset(b, k.u, w), ByteWidth(k.minWidth), w)
  }

  /** Everything before the first element: padding, keys, and the number of elements. */
  function WriteHeader(b: bytes, keys: Option<Value>, n: nat, w: nat): bytes
    requires w > 0
  {
    Write(WriteKeys(Align(b, w), keys, w), n, w)
  }

  function VectorType(vals: seq<Value>, typed: bool, keys: Option<Value>): nat {
    if keys.Some? then FBT_MAP
    else if !typed then FBT_VECTOR
    else (if vals == [] then FBT_KEY else vals[0].typ) + FBT_VECTOR_KEY - FBT_KEY
  }

  function CreateVector(b: bytes, minWidth: Width, vals: seq<Value>, step: nat, typed: bool, keys: Option<Value>)
    : (bytes, Value)
  {
    var bw := LayoutWidth(b, minWidth, vals, step, keys);
    var w := ByteWidth(bw);
    var header := WriteHeader(b, keys, |vals|, w);
    var elems := WriteElements(header, vals, w);
    (if typed then elems else WriteTypes(elems, vals, bw), Value(|header|, VectorType(vals, typed, keys), bw))
  }

  function EndVector(st: Builder, start: nat): (r: Builder)
    requires start <= |st.stack|
    ensures |r.stack| == start + 1
  {
    var (b, v) := CreateVector(st.buf, st.minWidth, st.stack[start..], 1, false, None);
    Push(st.(buf := b, stack := st.stack[..start]), v)
  }

  // ---------- Maps ----------

  /** Puts index k behind the indices of all keys that are not greater. */
  function InsertIndex(names: seq<bytes>, order: seq<nat>, k: nat): (r: seq<nat>)
    requires k < |names| && forall i :: 0 <= i < |order| ==> order[i] < |names|
    ensures |r| == |order| + 1
    ensures forall i :: 0 <= i < |r| ==> r[i] == k || r[i] in order
  {
    if order == [] || StringLessThan(names[k], names[order[0]]) then [k] + order
    else [order[0]] + InsertIndex(names, order[1..], k)
  }

  /** The indices of the first n keys, in the order of the keys. */
  function SortOrder(names: seq<bytes>, n: nat): (r: seq<nat>)
    requires n <= |names|
    ensures |r| == n && forall i :: 0 <= i < n ==> r[i] < n
  {
    if n == 0 then [] else InsertIndex(names, SortOrder(names, n - 1), n - 1)
  }

  function KeyName(b: bytes, v: Value): bytes {
    if CString(b, v.u).Ok? then CString(b, v.u).value else []
  }

  /** Names of the keys at the even stack positions from `start` on. */
  function StackNames(st: Builder, start: nat): (r: seq<bytes>)
    requires start <= |st.stack|
    ensures |r| == (|st.stack| - start) / 2
  {
    seq((|st.stack| - start) / 2,
        i requires 0 <= i < (|st.stack| - start) / 2 => KeyName(st.buf, st.stack[start + 2 * i]))
  }

  /** Every second stack entry from `start + offset` on, in the given order. */
  function Pick(stack: seq<Value>, start: nat, offset: nat, order: seq<nat>): (r: seq<Value>)
    requires offset < 2 && forall i :: 0 <= i < |order| ==> start + 2 * order[i] + offset < |stack|
    ensures |r| == |order|
  {
    seq(|order|, i requires 0 <= i < |order| => stack[start + 2 * order[i] + offset])
  }

  /** A vector of the keys, then one of the values that refers to it. */
  function CreateMap(b: bytes, minWidth: Width, names: seq<Value>, vals: seq<Value>): (bytes, Value) {
    var (c, keys) := CreateVector(b, minWidth, names, 2, true, None);
    CreateVector(c, minWidth, vals, 2, false, Some(keys))
  }

  /** Keys and values alternate on the stack from `start` on. */
  predicate InPairs(stack: seq<Value>, start: nat) {
    start <= |stack| && (|stack| - start) % 2 == 0
  }

  function EndMap(st: Builder, start: nat): (r: Builder)
    requires InPairs(st.stack, start)
    ensures |r.stack| == start + 1
  {
    var names := StackNames(st, start);
    var order := SortOrder(names, |names|);
    var (b, v) := CreateMap(st.buf, st.minWidth, Pick(st.stack, start, 0, order), Pick(st.stack, start, 1, order));
    Push(st.(buf := b, stack := st.stack[..start]), v)
  }

  // ---------- Finish ----------

  function Finish(st: Builder): bytes
    requires |st.stack| == 1
  {
    var root := st.stack[0];
    var w := ByteWidth(ElemWidth(root, |st.buf|, 0));
    WriteAny(Align(st.buf, w), root, w) + [StoredPackedType(root, 0)] + [w]
  }
}
