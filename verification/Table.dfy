/**
 Reading a FlatBuffer: `Table`, `String` and `Vector` accessors (table.h, vector.h,
 buffer.h) as pointer arithmetic over an arbitrary byte buffer. A pointer is an integer
 position relative to the start of the buffer, and every load goes through `Load`, so
 `Fault` means that the accessor would have touched a byte outside the buffer.
 */
module Table {
  import opened Bytes
  import opened Wrappers

  function Load(b: bytes, pos: int, w: nat): Checked<nat> {
    if 0 <= pos && pos + w <= |b| then Ok(FromLE(b[pos..pos + w])) else Fault
  }

  function LoadSigned(b: bytes, pos: int, w: nat): Checked<int> {
    var u :- Load(b, pos, w);
    Ok(Signed(u, w))
  }

  function LoadBytes(b: bytes, pos: int, n: nat): Checked<bytes> {
    if 0 <= pos && pos + n <= |b| then Ok(b[pos..pos + n]) else Fault
  }

  // ---------- table.h ----------

  function GetVTable(b: bytes, t: int): Checked<int> {
    var soffset :- LoadSigned(b, t, 4);
    Ok(t - soffset)
  }

  /** Position of a field inside its table, 0 when the table does not store it. */
  function GetOptionalFieldOffset(b: bytes, t: int, field: nat): Checked<nat> {
    var vtable :- GetVTable(b, t);
    var vtsize :- Load(b, vtable, 2);
    if field < vtsize then Load(b, vtable + field, 2) else Ok(0)
  }

  function GetField(b: bytes, t: int, field: nat, w: nat, defaultValue: nat): Checked<nat> {
    var fo :- GetOptionalFieldOffset(b, t, field);
    if fo != 0 then Load(b, t + fo, w) else Ok(defaultValue)
  }

  function GetPointer(b: bytes, t: int, field: nat): Checked<Option<int>> {
    var fo :- GetOptionalFieldOffset(b, t, field);
    if fo == 0 then Ok(None)
    else
      var o :- Load(b, t + fo, 4);
      Ok(Some(t + fo + o))
  }

  // ---------- buffer.h, vector.h, string.h ----------

  function GetRoot(b: bytes): Checked<int> {
    var o :- Load(b, 0, 4);
    Ok(o)
  }

  function VectorSize(b: bytes, v: int): Checked<nat> {
    Load(b, v, 4)
  }

  /** The raw contents of a vector whose elements take `w` bytes. */
  function VectorBytes(b: bytes, v: int, w: nat): Checked<bytes> {
    var n :- VectorSize(b, v);
    LoadBytes(b, v + 4, n * w)
  }

  /** Element i of a vector of scalars. */
  function VectorGet(b: bytes, v: int, w: nat, i: nat): Checked<nat> {
    Load(b, v + 4 + i * w, w)
  }

  /** Element i of a vector of offsets: the position it refers to (`IndirectHelper::Read`). */
  function VectorGetPointer(b: bytes, v: int, i: nat): Checked<int> {
    var o :- Load(b, v + 4 + i * 4, 4);
    Ok(v + 4 + i * 4 + o)
  }

  /** Contents of a string, with the terminator that `c_str` relies on. */
  function StringBytes(b: bytes, s: int): Checked<(bytes, byte)> {
    var n :- VectorSize(b, s);
    var chars :- LoadBytes(b, s + 4, n);
    var last :- Load(b, s + 4 + n, 1);
    FromLEBound(b[s + 4 + n..s + 4 + n + 1]);
    assert Pow256(1) == 256;
    Ok((chars, last))
  }

  // ---------- Buffers grow downwards: a load from a suffix is unaffected by what precedes it ----------

  predicate Extends(d: bytes, e: bytes) {
    |d| <= |e| && e[|e| - |d|..] == d
  }

  lemma SliceOfDrop(s: bytes, k: nat, i: nat, j: nat)
    requires k <= |s| && i <= j <= |s| - k
    ensures s[k..][i..j] == s[k + i..k + j]
  {
  }

  lemma ExtendsTransitive(d: bytes, e: bytes, f: bytes)
    requires Extends(d, e) && Extends(e, f)
    ensures Extends(d, f)
  {
    assert f[|f| - |d|..] == f[|f| - |e|..][|e| - |d|..];
  }

  lemma LoadExtends(d: bytes, e: bytes, pos: int, w: nat)
    requires Extends(d, e) && Load(d, pos, w).Ok?
    ensures Load(e, pos + |e| - |d|, w) == Load(d, pos, w)
    ensures LoadBytes(e, pos + |e| - |d|, w) == LoadBytes(d, pos, w)
  {
    var k := |e| - |d|;
    SliceOfDrop(e, k, pos, pos + w);
    assert e[k..] == d;
  }

  lemma FieldOffsetExtends(d: bytes, e: bytes, t: int, field: nat)
    requires Extends(d, e) && GetOptionalFieldOffset(d, t, field).Ok?
    ensures GetOptionalFieldOffset(e, t + |e| - |d|, field) == GetOptionalFieldOffset(d, t, field)
  {
    LoadExtends(d, e, t, 4);
    var vtable := GetVTable(d, t).value;
    LoadExtends(d, e, vtable, 2);
    if field < Load(d, vtable, 2).value { LoadExtends(d, e, vtable + field, 2); }
  }

  lemma FieldExtends(d: bytes, e: bytes, t: int, field: nat, w: nat, def: nat)
    requires Extends(d, e) && GetField(d, t, field, w, def).Ok?
    ensures GetField(e, t + |e| - |d|, field, w, def) == GetField(d, t, field, w, def)
  {
    FieldOffsetExtends(d, e, t, field);
    var fo := GetOptionalFieldOffset(d, t, field).value;
    if fo != 0 { LoadExtends(d, e, t + fo, w); }
  }

  /** A pointer read from an extended buffer is the same pointer, shifted with the buffer. */
  lemma PointerExtends(d: bytes, e: bytes, t: int, field: nat)
    requires Extends(d, e) && GetPointer(d, t, field).Ok?
    ensures var p, q := GetPointer(d, t, field).value, GetPointer(e, t + |e| - |d|, field);
            q == Ok(if p.None? then None else Some(p.value + |e| - |d|))
  {
    FieldOffsetExtends(d, e, t, field);
    var fo := GetOptionalFieldOffset(d, t, field).value;
    if fo != 0 { LoadExtends(d, e, t + fo, 4); }
  }

  lemma VectorExtends(d: bytes, e: bytes, v: int, w: nat)
    requires Extends(d, e) && VectorBytes(d, v, w).Ok?
    ensures VectorBytes(e, v + |e| - |d|, w) == VectorBytes(d, v, w)
  {
    LoadExtends(d, e, v, 4);
    LoadExtends(d, e, v + 4, VectorSize(d, v).value * w);
  }

  lemma StringExtends(d: bytes, e: bytes, s: int)
    requires Extends(d, e) && StringBytes(d, s).Ok?
    ensures StringBytes(e, s + |e| - |d|) == StringBytes(d, s)
  {
    LoadExtends(d, e, s, 4);
    var n := VectorSize(d, s).value;
    LoadExtends(d, e, s + 4, n);
    LoadExtends(d, e, s + 4 + n, 1);
  }
}
