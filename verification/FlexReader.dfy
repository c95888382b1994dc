/**
 Reading a FlexBuffer (Reference, String, Blob, Vector, TypedVector, Map, GetRoot in
 flexbuffers.h) as pointer arithmetic over arbitrary bytes, and what it means for a
 reference to denote a tree of values.
 */
module FlexReader {
  import opened Bits
  import opened Bytes
  import opened Wrappers
  import opened Table
  import opened StringOrder
  import opened FlexWidths

  const FBT_NULL: nat := 0
  const FBT_INT: nat := 1
  const FBT_UINT: nat := 2
  const FBT_FLOAT: nat := 3
  const FBT_KEY: nat := 4
  const FBT_STRING: nat := 5
  const FBT_MAP: nat := 9
  const FBT_VECTOR: nat := 10
  const FBT_VECTOR_INT: nat := 11
  const FBT_VECTOR_KEY: nat := 14
  const FBT_BLOB: nat := 25
  const FBT_BOOL: nat := 26

  /** The values this model covers; a map's keys are strings without zero bytes. */
  datatype Tree =
    | NullT
    | BoolT(b: bool)
    | IntT(i: int)
    | UIntT(u: nat)
    | StringT(s: bytes)
    | BlobT(s: bytes)
    | VectorT(elems: seq<Tree>)
    | MapT(entries: seq<Entry>)

  datatype Entry = Entry(key: bytes, value: Tree)

  /** A place in the buffer, with the width of the slot it lies in and the width and type of what it refers to. */
  datatype Reference = Reference(data: int, parentWidth: nat, byteWidth: nat, typ: nat)

  /** `1 << (packed_type & 3)` and `packed_type >> 2`. */
  function Packed(data: int, parentWidth: nat, packedType: nat): Reference {
    Reference(data, parentWidth, Pow2(And(packedType, 3)), Shr(packedType, 2))
  }

  /** `bit_width | (type << 2)` */
  function PackedType(bw: Width, typ: nat): nat {
    Or(Shl(typ, 2), bw)
  }

  /** Unpacking a packed type gives width and type back, and it fits in its byte. */
  lemma PackUnpack(data: int, parentWidth: nat, bw: Width, typ: nat)
    requires typ < 64
    ensures Packed(data, parentWidth, PackedType(bw, typ)) == Reference(data, parentWidth, ByteWidth(bw), typ)
    ensures PackedType(bw, typ) < 256
  {
    hide Or, And, Shr;
    Pow2Values();
    OrDisjoint(typ, 2, bw);
    var p := PackedType(bw, typ);
    assert p == 4 * typ + bw;
    AndMask(p, 2);
    ShrDivides(p, 2);
    ModUnique(p, 4, typ, bw);
  }

  // ---------- Scalars ----------

  function SizedWidth(w: nat): nat {
    if w < 4 then (if w < 2 then 1 else 2) else (if w < 8 then 4 else 8)
  }

  function ReadUInt64(b: bytes, data: int, w: nat): Checked<nat> {
    Load(b, data, SizedWidth(w))
  }

  function ReadInt64(b: bytes, data: int, w: nat): Checked<int> {
    LoadSigned(b, data, SizedWidth(w))
  }

  function Indirect(b: bytes, data: int, w: nat): Checked<int> {
    var off :- ReadUInt64(b, data, w);
    Ok(data - off)
  }

  function Target(b: bytes, r: Reference): Checked<int> {
    Indirect(b, r.data, r.parentWidth)
  }

  function AsInt64(b: bytes, r: Reference): Checked<int> {
    ReadInt64(b, r.data, r.parentWidth)
  }

  function AsUInt64(b: bytes, r: Reference): Checked<nat> {
    ReadUInt64(b, r.data, r.parentWidth)
  }

  function AsBool(b: bytes, r: Reference): Checked<bool> {
    var u :- ReadUInt64(b, r.data, r.parentWidth);
    Ok(u != 0)
  }

  // ---------- Strings, blobs, keys ----------

  /** The size stored just before the data. */
  function SizeAt(b: bytes, pos: int, w: nat): Checked<nat> {
    ReadUInt64(b, pos - w, w)
  }

  function SizedBytes(b: bytes, pos: int, w: nat): Checked<bytes> {
    var n :- SizeAt(b, pos, w);
    LoadBytes(b, pos, n)
  }

  function AsSizedBytes(b: bytes, r: Reference): Checked<bytes> {
    var p :- Target(b, r);
    SizedBytes(b, p, r.byteWidth)
  }

  /** The bytes up to the terminating zero. */
  function CString(b: bytes, pos: int): Checked<bytes>
    decreases if 0 <= pos <= |b| then |b| - pos else 0
  {
    if !(0 <= pos < |b|) then Fault
    else if b[pos] == 0 then Ok([])
    else
      var rest :- CString(b, pos + 1);
      Ok([b[pos]] + rest)
  }

  /** C's strcmp, on strings that may lie in different buffers. */
  function Strcmp(b: bytes, p: int, c: bytes, q: int): Checked<int>
    decreases if 0 <= p <= |b| then |b| - p else 0
  {
    if !(0 <= p < |b| && 0 <= q < |c|) then Fault
    else if b[p] != c[q] then Ok(b[p] as int - c[q])
    else if b[p] == 0 then Ok(0)
    else Strcmp(b, p + 1, c, q + 1)
  }

  /** On terminated strings strcmp is the lexicographic order of their characters. */
  lemma {:induction false} StrcmpCompares(b: bytes, p: int, c: bytes, q: int)
    requires CString(b, p).Ok? && CString(c, q).Ok?
    ensures Strcmp(b, p, c, q).Ok?
    ensures Strcmp(b, p, c, q).value < 0 <==> StringLessThan(CString(b, p).value, CString(c, q).value)
    ensures Strcmp(b, p, c, q).value == 0 <==> CString(b, p) == CString(c, q)
    decreases |b| - p
  {
    var s, t := CString(b, p).value, CString(c, q).value;
    LessStep(s, t);
    if b[p] != 0 && c[q] != 0 && b[p] == c[q] {
      StrcmpCompares(b, p + 1, c, q + 1);
      assert s[1..] == CString(b, p + 1).value && t[1..] == CString(c, q + 1).value;
    }
  }

  function AsKey(b: bytes, r: Reference): Checked<bytes> {
    var p :- Target(b, r);
    CString(b, p)
  }

  // ---------- Vectors and maps ----------

  /** Element i of the untyped vector of n elements at `pos`; its packed type lies behind the elements. */
  function VectorElement(b: bytes, pos: int, w: nat, n: nat, i: nat): Checked<Reference> {
    var packedType :- Load(b, pos + n * w + i, 1);
    Ok(Packed(pos + i * w, w, packedType))
  }

  function TypedElement(pos: int, w: nat, i: nat, typ: nat): Reference {
    Reference(pos + i * w, w, 1, typ)
  }

  /** Position and width of a map's vector of keys. */
  function Keys(b: bytes, pos: int, w: nat): Checked<(int, nat)> {
    var keys :- Indirect(b, pos - 3 * w, w);
    var keysWidth :- ReadUInt64(b, pos - 2 * w, w);
    Ok((keys, keysWidth % 0x100))
  }

  function GetRoot(b: bytes): Checked<Reference> {
    var byteWidth :- Load(b, |b| - 1, 1);
    var packedType :- Load(b, |b| - 2, 1);
    Ok(Packed(|b| - 2 - byteWidth, byteWidth, packedType))
  }

  // ---------- What a reference denotes ----------

  /** The type of the trees that are stored elsewhere and referred to by offset. */
  function OffsetType(t: Tree): nat {
    match t
    case StringT(_) => FBT_STRING
    case BlobT(_) => FBT_BLOB
    case VectorT(_) => FBT_VECTOR
    case MapT(_) => FBT_MAP
    case _ => FBT_NULL
  }

  /** The reference reads, all the way down, as the tree. */
  ghost predicate Denotes(b: bytes, r: Reference, t: Tree)
    decreases t, 1
  {
    match t
    case NullT => r.typ == FBT_NULL
    case BoolT(x) => r.typ == FBT_BOOL && AsBool(b, r) == Ok(x)
    case IntT(i) => r.typ == FBT_INT && AsInt64(b, r) == Ok(i)
    case UIntT(u) => r.typ == FBT_UINT && AsUInt64(b, r) == Ok(u)
    case _ => r.typ == OffsetType(t) && Target(b, r).Ok? && DenotesAt(b, Target(b, r).value, r.byteWidth, t)
  }

  /** The data at `pos`, preceded by its size in `w` bytes, reads as the tree; a string ends with a zero byte. */
  ghost predicate DenotesAt(b: bytes, pos: int, w: nat, t: Tree)
    decreases t, 0
  {
    match t
    case StringT(s) => SizedBytes(b, pos, w) == Ok(s) && Load(b, pos + |s|, 1) == Ok(0)
    case BlobT(s) => SizedBytes(b, pos, w) == Ok(s)
    case VectorT(elems) =>
      && SizeAt(b, pos, w) == Ok(|elems|)
      && (forall i :: 0 <= i < |elems| ==> DenotesElement(b, pos, w, |elems|, i, elems[i]))
    case MapT(entries) =>
      && SizeAt(b, pos, w) == Ok(|entries|)
      && Keys(b, pos, w).Ok?
      && var (keys, keysWidth) := Keys(b, pos, w).value;
      && LegalWidth(keysWidth) && SizeAt(b, keys, keysWidth) == Ok(|entries|)
      && (forall i :: 0 <= i < |entries| ==> KeyAt(b, keys, keysWidth, i, entries[i].key))
      && (forall i :: 0 <= i < |entries| ==> DenotesElement(b, pos, w, |entries|, i, entries[i].value))
    case _ => false
  }

  predicate LegalWidth(w: nat) {
    w == 1 || w == 2 || w == 4 || w == 8
  }

  predicate KeyAt(b: bytes, keys: int, w: nat, i: nat, key: bytes) {
    AsKey(b, TypedElement(keys, w, i, FBT_KEY)) == Ok(key)
  }

  ghost predicate DenotesElement(b: bytes, pos: int, w: nat, n: nat, i: nat, t: Tree)
    decreases t, 2
  {
    VectorElement(b, pos, w, n, i).Ok? && Denotes(b, VectorElement(b, pos, w, n, i).value, t)
  }

  // ---------- The recursive reader ----------

  /** Reads a whole tree; None on an access outside the buffer, another type, or deeper nesting than `fuel`. */
  function ReadTree(b: bytes, r: Reference, fuel: nat): Option<Tree>
    decreases fuel, 0, 0
  {
    if fuel == 0 then None
    else if r.typ == FBT_NULL then Some(NullT)
    else if r.typ == FBT_BOOL then (var x := AsBool(b, r); if x.Ok? then Some(BoolT(x.value)) else None)
    else if r.typ == FBT_INT then (var x := AsInt64(b, r); if x.Ok? then Some(IntT(x.value)) else None)
    else if r.typ == FBT_UINT then (var x := AsUInt64(b, r); if x.Ok? then Some(UIntT(x.value)) else None)
    else if r.typ == FBT_STRING then (var x := AsSizedBytes(b, r); if x.Ok? then Some(StringT(x.value)) else None)
    else if r.typ == FBT_BLOB then (var x := AsSizedBytes(b, r); if x.Ok? then Some(BlobT(x.value)) else None)
    else if r.typ == FBT_VECTOR then
      var pos := Target(b, r);
      if pos.Fault? || SizeAt(b, pos.value, r.byteWidth).Fault? then None
      else
        var n := SizeAt(b, pos.value, r.byteWidth).value;
        var elems :- ReadElements(b, pos.value, r.byteWidth, n, n, fuel - 1);
        Some(VectorT(elems))
    else if r.typ == FBT_MAP then
      var pos := Target(b, r);
      if pos.Fault? || SizeAt(b, pos.value, r.byteWidth).Fault? || Keys(b, pos.value, r.byteWidth).Fault? then None
      else
        var n := SizeAt(b, pos.value, r.byteWidth).value;
        var (keys, keysWidth) := Keys(b, pos.value, r.byteWidth).value;
        var elems :- ReadElements(b, pos.value, r.byteWidth, n, n, fuel - 1);
        var names :- ReadKeys(b, keys, keysWidth, n);
        if SizeAt(b, keys, keysWidth) == Ok(n) && |elems| == |names| then Some(MapT(Zip(names, elems))) else None
    else None
  }

  /** The first k of n elements. */
  function ReadElements(b: bytes, pos: int, w: nat, n: nat, k: nat, fuel: nat): Option<seq<Tree>>
    decreases fuel, 1, k
  {
    if k == 0 then Some([])
    else
      var before :- ReadElements(b, pos, w, n, k - 1, fuel);
      var ref := VectorElement(b, pos, w, n, k - 1);
      if ref.Fault? then None
      else
        var last :- ReadTree(b, ref.value, fuel);
        Some(before + [last])
  }

  function ReadKeys(b: bytes, keys: int, w: nat, k: nat): Option<seq<bytes>>
    decreases k
  {
    if k == 0 then Some([])
    else
      var before :- ReadKeys(b, keys, w, k - 1);
      var key := AsKey(b, TypedElement(keys, w, k - 1, FBT_KEY));
      if key.Fault? then None else Some(before + [key.value])
  }

  function Zip(names: seq<bytes>, elems: seq<Tree>): (r: seq<Entry>)
    requires |names| == |elems|
    ensures |r| == |names|
  {
    seq(|names|, i requires 0 <= i < |names| => Entry(names[i], elems[i]))
  }

  function MaxHeight(ts: seq<Tree>): nat
    decreases ts, 0
  {
    if ts == [] then 0
    else
      var h, rest := Height(ts[0]), MaxHeight(ts[1..]);
      if h > rest then h else rest
  }

  function MaxEntryHeight(es: seq<Entry>): nat
    decreases es, 0
  {
    if es == [] then 0
    else
      var h, rest := Height(es[0].value), MaxEntryHeight(es[1..]);
      if h > rest then h else rest
  }

  function Height(t: Tree): nat
    decreases t, 1
  {
    match t
    case VectorT(elems) => 1 + MaxHeight(elems)
    case MapT(entries) => 1 + MaxEntryHeight(entries)
    case _ => 1
  }

  lemma {:induction false} HeightOfElement(ts: seq<Tree>, i: nat)
    requires i < |ts|
    ensures Height(ts[i]) <= MaxHeight(ts)
    decreases |ts|
  {
    if i > 0 { HeightOfElement(ts[1..], i - 1); }
  }

  lemma {:induction false} HeightOfEntry(es: seq<Entry>, i: nat)
    requires i < |es|
    ensures Height(es[i].value) <= MaxEntryHeight(es)
    decreases |es|
  {
    if i > 0 { HeightOfEntry(es[1..], i - 1); }
  }

  function Values(es: seq<Entry>): (r: seq<Tree>)
    ensures |r| == |es|
  {
    seq(|es|, i requires 0 <= i < |es| => es[i].value)
  }

  /** A reference denotes at most one tree, and the recursive reader finds it. */
  lemma {:induction false} DenotesReads(b: bytes, r: Reference, t: Tree, fuel: nat)
    requires Denotes(b, r, t) && Height(t) <= fuel
    ensures ReadTree(b, r, fuel) == Some(t)
    decreases fuel, 0
  {
    match t
    case VectorT(elems) => VectorReads(b, r, elems, fuel);
    case MapT(entries) => MapReads(b, r, entries, fuel);
    case _ => hide AsBool, AsInt64, AsUInt64, Target, SizedBytes;
  }

  lemma {:induction false} VectorReads(b: bytes, r: Reference, elems: seq<Tree>, fuel: nat)
    requires Denotes(b, r, VectorT(elems)) && Height(VectorT(elems)) <= fuel
    ensures ReadTree(b, r, fuel) == Some(VectorT(elems))
    decreases fuel - 1, 2
  {
    hide SizeAt, Target, DenotesElement;
    assert Height(VectorT(elems)) == 1 + MaxHeight(elems);
    forall i | 0 <= i < |elems| ensures Height(elems[i]) <= fuel - 1 { HeightOfElement(elems, i); }
    ElementsRead(b, Target(b, r).value, r.byteWidth, elems, |elems|, fuel - 1);
    assert elems[..|elems|] == elems;
  }

  lemma {:induction false} MapReads(b: bytes, r: Reference, entries: seq<Entry>, fuel: nat)
    requires Denotes(b, r, MapT(entries)) && Height(MapT(entries)) <= fuel
    ensures ReadTree(b, r, fuel) == Some(MapT(entries))
    decreases fuel - 1, 2
  {
    hide SizeAt, Target, DenotesElement, KeyAt, Keys;
    assert Height(MapT(entries)) == 1 + MaxEntryHeight(entries);
    forall i | 0 <= i < |entries| ensures Height(entries[i].value) <= fuel - 1 { HeightOfEntry(entries, i); }
    var pos := Target(b, r).value;
    var (keys, keysWidth) := Keys(b, pos, r.byteWidth).value;
    var vals := Values(entries);
    ElementsRead(b, pos, r.byteWidth, vals, |vals|, fuel - 1);
    assert vals[..|vals|] == vals;
    KeysRead(b, keys, keysWidth, entries, |entries|);
    assert Zip(ReadKeys(b, keys, keysWidth, |entries|).value, vals) == entries;
  }

  lemma {:induction false} ElementsRead(b: bytes, pos: int, w: nat, elems: seq<Tree>, k: nat, fuel: nat)
    requires k <= |elems|
    requires forall i :: 0 <= i < |elems| ==> DenotesElement(b, pos, w, |elems|, i, elems[i])
    requires forall i :: 0 <= i < |elems| ==> Height(elems[i]) <= fuel
    ensures ReadElements(b, pos, w, |elems|, k, fuel) == Some(elems[..k])
    decreases fuel, 1, k
  {
    hide Denotes, VectorElement, ReadTree, Height;
    if k > 0 {
      ElementsRead(b, pos, w, elems, k - 1, fuel);
      assert DenotesElement(b, pos, w, |elems|, k - 1, elems[k - 1]);
      DenotesReads(b, VectorElement(b, pos, w, |elems|, k - 1).value, elems[k - 1], fuel);
      assert elems[..k] == elems[..k - 1] + [elems[k - 1]];
    }
  }

  lemma {:induction false} KeysRead(b: bytes, keys: int, w: nat, es: seq<Entry>, k: nat)
    requires k <= |es|
    requires forall i :: 0 <= i < |es| ==> KeyAt(b, keys, w, i, es[i].key)
    ensures var r := ReadKeys(b, keys, w, k);
            r.Some? && |r.value| == k && forall i :: 0 <= i < k ==> r.value[i] == es[i].key
    decreases k
  {
    if k > 0 {
      KeysRead(b, keys, w, es, k - 1);
      assert KeyAt(b, keys, w, k - 1, es[k - 1].key);
    }
  }

  // ---------- Appending to the buffer ----------

  /** Bytes are only ever appended, so what can be read stays as it is. */
  lemma LoadGrows(b: bytes, c: bytes, pos: int, w: nat)
    requires b <= c && Load(b, pos, w).Ok?
    ensures Load(c, pos, w) == Load(b, pos, w)
  {
    assert c[pos..pos + w] == b[pos..pos + w];
  }

  lemma SizeGrows(b: bytes, c: bytes, pos: int, w: nat)
    requires b <= c && SizeAt(b, pos, w).Ok?
    ensures SizeAt(c, pos, w) == SizeAt(b, pos, w)
  {
    LoadGrows(b, c, pos - w, SizedWidth(w));
  }

  lemma SizedBytesGrow(b: bytes, c: bytes, pos: int, w: nat)
    requires b <= c && SizedBytes(b, pos, w).Ok?
    ensures SizedBytes(c, pos, w) == SizedBytes(b, pos, w)
  {
    SizeGrows(b, c, pos, w);
    var n := SizeAt(b, pos, w).value;
    assert c[pos..pos + n] == b[pos..pos + n];
  }

  lemma {:induction false} CStringGrows(b: bytes, c: bytes, pos: int)
    requires b <= c && CString(b, pos).Ok?
    ensures CString(c, pos) == CString(b, pos)
    decreases |b| - pos
  {
    if b[pos] != 0 { CStringGrows(b, c, pos + 1); }
  }

  lemma TargetGrows(b: bytes, c: bytes, r: Reference)
    requires b <= c && Target(b, r).Ok?
    ensures Target(c, r) == Target(b, r)
  {
    LoadGrows(b, c, r.data, SizedWidth(r.parentWidth));
  }

  lemma KeyGrows(b: bytes, c: bytes, keys: int, w: nat, i: nat, key: bytes)
    requires b <= c && KeyAt(b, keys, w, i, key)
    ensures KeyAt(c, keys, w, i, key)
  {
    var r := TypedElement(keys, w, i, FBT_KEY);
    TargetGrows(b, c, r);
    CStringGrows(b, c, Target(b, r).value);
  }

  lemma KeysGrow(b: bytes, c: bytes, pos: int, w: nat)
    requires b <= c && Keys(b, pos, w).Ok?
    ensures Keys(c, pos, w) == Keys(b, pos, w)
  {
    LoadGrows(b, c, pos - 3 * w, SizedWidth(w));
    LoadGrows(b, c, pos - 2 * w, SizedWidth(w));
  }

  lemma {:induction false} DenotesGrows(b: bytes, c: bytes, r: Reference, t: Tree)
    requires b <= c && Denotes(b, r, t)
    ensures Denotes(c, r, t)
    decreases t, 1
  {
    hide Load, Target, DenotesAt;
    if t.StringT? || t.BlobT? || t.VectorT? || t.MapT? {
      TargetGrows(b, c, r);
      DenotesAtGrows(b, c, Target(b, r).value, r.byteWidth, t);
    } else if !t.NullT? {
      LoadGrows(b, c, r.data, SizedWidth(r.parentWidth));
    }
  }

  lemma {:induction false} DenotesAtGrows(b: bytes, c: bytes, pos: int, w: nat, t: Tree)
    requires b <= c && DenotesAt(b, pos, w, t)
    ensures DenotesAt(c, pos, w, t)
    decreases t, 0
  {
    hide SizeAt, SizedBytes, Keys, KeyAt, DenotesElement, Load;
    match t
    case StringT(s) =>
      SizedBytesGrow(b, c, pos, w);
      LoadGrows(b, c, pos + |s|, 1);
    case BlobT(s) => SizedBytesGrow(b, c, pos, w);
    case VectorT(elems) =>
      SizeGrows(b, c, pos, w);
      forall i | 0 <= i < |elems| ensures DenotesElement(c, pos, w, |elems|, i, elems[i]) {
        ElementGrows(b, c, pos, w, |elems|, i, elems[i]);
      }
    case MapT(entries) =>
      SizeGrows(b, c, pos, w);
      KeysGrow(b, c, pos, w);
      var (keys, keysWidth) := Keys(b, pos, w).value;
      SizeGrows(b, c, keys, keysWidth);
      forall i | 0 <= i < |entries| ensures KeyAt(c, keys, keysWidth, i, entries[i].key) {
        KeyGrows(b, c, keys, keysWidth, i, entries[i].key);
      }
      forall i | 0 <= i < |entries| ensures DenotesElement(c, pos, w, |entries|, i, entries[i].value) {
        ElementGrows(b, c, pos, w, |entries|, i, entries[i].value);
      }
  }

  lemma {:induction false} ElementGrows(b: bytes, c: bytes, pos: int, w: nat, n: nat, i: nat, t: Tree)
    requires b <= c && DenotesElement(b, pos, w, n, i, t)
    ensures DenotesElement(c, pos, w, n, i, t)
    decreases t, 2
  {
    hide Load, Denotes;
    LoadGrows(b, c, pos + n * w + i, 1);
    DenotesGrows(b, c, VectorElement(b, pos, w, n, i).value, t);
  }
}
