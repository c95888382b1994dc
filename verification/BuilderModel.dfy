/**
 What FlatBufferBuilder computes, as functions on its abstract state. The buffer grows
 downwards, so `data` gets longer at the front and an object is named by its distance
 from the end, which later operations leave alone.
 */
module BuilderModel {
  import opened Bytes
  import opened Wrappers
  import opened Table
  import opened StringOrder

  /** The serialized bytes and the largest alignment they need. */
  datatype Buf = Buf(data: bytes, minAlign: nat)

  datatype FieldLoc = FieldLoc(off: nat, id: nat)

  /**
   `vtables` and `fields` are the two lists kept in the scratch part of the buffer,
   `strings` the pool of shared strings.
   */
  datatype Builder = Builder(
    buf: Buf,
    vtables: seq<nat>,
    fields: seq<FieldLoc>,
    strings: seq<nat>,
    maxVoffset: nat,
    nested: bool,
    finished: bool,
    forceDefaults: bool,
    dedup: bool)

  const EMPTY := Builder(Buf([], 1), [], [], [], 0, false, false, false, true)

  /** FLATBUFFERS_MAX_BUFFER_SIZE: the asserted bound on the buffer's size. */
  const LIMIT: nat := 0x7FFF_FFFF

  // ---------- Alignment and scalars ----------

  function Max(a: nat, b: nat): nat { if a > b then a else b }

  function Pad(b: Buf, n: nat): Buf {
    Buf(Zeros(n) + b.data, b.minAlign)
  }

  function TrackMinAlign(b: Buf, a: nat): Buf {
    Buf(b.data, Max(a, b.minAlign))
  }

  function Align(b: Buf, a: nat): Buf
    requires IsAlign(a)
  {
    Pad(TrackMinAlign(b, a), Padding(|b.data|, a))
  }

  function PreAlign(b: Buf, len: nat, a: nat): Buf
    requires IsAlign(a)
  {
    if len == 0 then b else Pad(TrackMinAlign(b, a), Padding(|b.data| + len, a))
  }

  function PushBytes(b: Buf, s: bytes): Buf {
    Buf(s + b.data, b.minAlign)
  }

  function PushElement(b: Buf, w: nat, value: nat): Buf
    requires IsAlign(w)
  {
    PushBytes(Align(b, w), ToLE(value, w))
  }

  /** The relative offset to store next for an object at `off`, once the buffer is aligned for it. */
  function ReferTo(b: Buf, off: nat): nat
    requires off <= |b.data|
  {
    |b.data| - off + 4
  }

  function PushOffset(b: Buf, off: nat): Buf
    requires off <= |b.data|
  {
    PushElement(Align(b, 4), 4, ReferTo(Align(b, 4), off))
  }

  // ---------- Strings and vectors ----------

  function CreateString(b: Buf, s: bytes): (r: Buf)
    ensures |r.data| >= |b.data| + |s| + 5
  {
    PushElement(PushBytes(Pad(PreAlign(b, |s| + 1, 4), 1), s), 4, |s|)
  }

  function StartVector(b: Buf, len: nat, elemSize: nat): Buf
    requires IsAlign(elemSize)
  {
    PreAlign(PreAlign(b, len * elemSize, 4), len * elemSize, elemSize)
  }

  /** The string at `off`, as the pool's comparison reads it. */
  function StringAt(d: bytes, off: nat): bytes {
    var r := StringBytes(d, |d| - off);
    if r.Ok? then r.value.0 else []
  }

  /** The pooled string equivalent to the one at `off`: neither is less than the other. */
  function FindString(d: bytes, pool: seq<nat>, off: nat): (r: Option<nat>)
    ensures r.Some? ==> r.value in pool && StringAt(d, r.value) == StringAt(d, off)
    ensures r.None? ==> forall o :: o in pool ==> StringAt(d, o) != StringAt(d, off)
  {
    if pool == [] then None
    else
      LessTrichotomy(StringAt(d, pool[0]), StringAt(d, off));
      if !StringLessThan(StringAt(d, pool[0]), StringAt(d, off))
          && !StringLessThan(StringAt(d, off), StringAt(d, pool[0]))
      then Some(pool[0])
      else FindString(d, pool[1..], off)
  }

  /** Serializes the string, then gives the bytes back if an equal one was there already. */
  function CreateSharedString(st: Builder, s: bytes): (r: (Builder, nat)) {
    var b := CreateString(st.buf, s);
    var found := FindString(b.data, st.strings, |b.data|);
    if found.Some? then (st.(buf := Buf(st.buf.data, b.minAlign)), found.value)
    else (st.(buf := b, strings := st.strings + [|b.data|]), |b.data|)
  }

  /** A vector of `len` scalars of `w` bytes, given as they lie in memory. */
  function CreateVector(b: Buf, len: nat, w: nat, raw: bytes): Buf
    requires IsAlign(w) && |raw| == len * w
  {
    PushElement(PushBytes(StartVector(b, len, w), raw), 4, len)
  }

  /** The offsets of a vector are pushed last element first. */
  function PushOffsets(b: Buf, offs: seq<nat>): (r: Buf)
    requires forall o :: o in offs ==> o <= |b.data|
    ensures |r.data| >= |b.data|
    decreases |offs|
  {
    if offs == [] then b
    else
      var n := |offs| - 1;
      assert offs[n] in offs && forall o :: o in offs[..n] ==> o in offs;
      PushOffsets(PushOffset(b, offs[n]), offs[..n])
  }

  function CreateOffsetVector(b: Buf, offs: seq<nat>): Buf
    requires forall o :: o in offs ==> o <= |b.data|
  {
    PushElement(PushOffsets(StartVector(b, |offs|, 4), offs), 4, |offs|)
  }

  /** The strings of a vector, first to last, and their offsets. */
  function CreateStrings(b: Buf, ss: seq<bytes>): (r: (Buf, seq<nat>))
    ensures |r.1| == |ss| && |r.0.data| >= |b.data|
    ensures forall o :: o in r.1 ==> o <= |r.0.data|
    decreases |ss|
  {
    if ss == [] then (b, [])
    else
      var n := |ss| - 1;
      var (b', offs) := CreateStrings(b, ss[..n]);
      var b'' := CreateString(b', ss[n]);
      (b'', offs + [|b''.data|])
  }

  function CreateVectorOfStrings(b: Buf, ss: seq<bytes>): Buf {
    var (b', offs) := CreateStrings(b, ss);
    CreateOffsetVector(b', offs)
  }

  // ---------- Tables ----------

  function StartTable(st: Builder): Builder {
    st.(nested := true)
  }

  function TrackField(st: Builder, buf: Buf, id: nat): Builder {
    st.(buf := buf, fields := st.fields + [FieldLoc(|buf.data|, id)], maxVoffset := Max(id, st.maxVoffset))
  }

  function AddElement(st: Builder, id: nat, w: nat, value: nat, def: nat): Builder
    requires IsAlign(w)
  {
    if value == def && !st.forceDefaults then st else TrackField(st, PushElement(st.buf, w, value), id)
  }

  /** Offset 0 stands for a null object and is not stored. */
  function AddOffset(st: Builder, id: nat, off: nat): Builder
    requires off <= |st.buf.data|
  {
    if off == 0 then st
    else AddElement(st.(buf := Align(st.buf, 4)), id, 4, ReferTo(Align(st.buf, 4), off), 0)
  }

  function WriteAt(b: bytes, pos: nat, s: bytes): (r: bytes)
    requires pos + |s| <= |b|
    ensures |r| == |b|
  {
    b[..pos] + s + b[pos + |s|..]
  }

  function VTableSize(maxVoffset: nat): (n: nat)
    ensures n >= 4 && n >= maxVoffset + 2
  {
    Max(maxVoffset + 2, 4)
  }

  function EmptyVTable(size: nat, tableSize: nat): (vt: bytes)
    requires size >= 4
    ensures |vt| == size
  {
    WriteAt(WriteAt(Zeros(size), 2, ToLE(tableSize, 2)), 0, ToLE(size, 2))
  }

  /** Every tracked field lies between the table start and its vtable offset, and has a slot. */
  predicate FieldsFit(fields: seq<FieldLoc>, loc: nat, size: nat) {
    forall k :: 0 <= k < |fields| ==> 4 <= fields[k].id && fields[k].id + 2 <= size && fields[k].off < loc
  }

  function FillVTable(vt: bytes, fields: seq<FieldLoc>, loc: nat): (r: bytes)
    requires FieldsFit(fields, loc, |vt|)
    ensures |r| == |vt|
    decreases |fields|
  {
    if fields == [] then vt
    else
      var n := |fields| - 1;
      WriteAt(FillVTable(vt, fields[..n], loc), fields[n].id, ToLE(loc - fields[n].off, 2))
  }

  /** The vtable remembered at `off` is byte for byte `vt`. */
  predicate SameVTable(d: bytes, off: nat, vt: bytes) {
    Load(d, |d| - off, 2) == Ok(|vt|) && LoadBytes(d, |d| - off, |vt|) == Ok(vt)
  }

  function FindVTable(d: bytes, vtables: seq<nat>, vt: bytes): (r: Option<nat>)
    ensures r.Some? ==> r.value in vtables && SameVTable(d, r.value, vt)
    ensures r.None? ==> forall v :: v in vtables ==> !SameVTable(d, v, vt)
  {
    if vtables == [] then None
    else if SameVTable(d, vtables[0], vt) then Some(vtables[0])
    else FindVTable(d, vtables[1..], vt)
  }

  /** The table with its (still zero) vtable offset in front. */
  function TableObject(b: Buf): (r: Buf)
    ensures |r.data| >= |b.data| + 4
  {
    PushElement(b, 4, 0)
  }

  /** Where the table begins, and the vtable that EndTable makes for it. */
  function TableLoc(st: Builder): (loc: nat)
    ensures loc >= |st.buf.data| + 4
  {
    |TableObject(st.buf).data|
  }

  predicate CanEnd(st: Builder, start: nat) {
    start <= |st.buf.data| && FieldsFit(st.fields, TableLoc(st), VTableSize(st.maxVoffset))
  }

  function NewVTable(st: Builder, start: nat): (vt: bytes)
    requires CanEnd(st, start)
    ensures |vt| == VTableSize(st.maxVoffset)
  {
    var loc := TableLoc(st);
    FillVTable(EmptyVTable(VTableSize(st.maxVoffset), loc - start), st.fields, loc)
  }

  /** An equal vtable among the remembered ones, when sharing is on. */
  function SharedVTable(st: Builder, start: nat): Option<nat>
    requires CanEnd(st, start)
  {
    var vt := NewVTable(st, start);
    if st.dedup then FindVTable(vt + TableObject(st.buf).data, st.vtables, vt) else None
  }

  /** The vtable a finished table uses: the shared one, or the new one just in front of the table. */
  function UsedVTable(st: Builder, start: nat): nat
    requires CanEnd(st, start)
  {
    var found := SharedVTable(st, start);
    if found.Some? then found.value else |NewVTable(st, start)| + TableLoc(st)
  }

  /** Finishes a table: its vtable is put in front of it, or an equal remembered one is used. */
  function EndTable(st: Builder, start: nat): Builder
    requires CanEnd(st, start)
  {
    var obj := TableObject(st.buf);
    var vtUse := UsedVTable(st, start);
    var isNew := SharedVTable(st, start).None?;
    var soffset := ToLE(Unsigned(vtUse - TableLoc(st), 4), 4);
    st.(
      buf := Buf((if isNew then NewVTable(st, start) else []) + (soffset + obj.data[4..]), obj.minAlign),
      vtables := if isNew then st.vtables + [vtUse] else st.vtables,
      fields := [],
      maxVoffset := 0,
      nested := false)
  }

  // ---------- Finish ----------

  function FinishBuf(b: Buf, root: nat): Buf
    requires root <= |b.data| && IsAlign(b.minAlign)
  {
    PushOffset(PreAlign(b, 4, b.minAlign), root)
  }

  function Finish(st: Builder, root: nat): Builder
    requires root <= |st.buf.data| && IsAlign(st.buf.minAlign)
  {
    st.(buf := FinishBuf(st.buf, root), vtables := [], finished := true)
  }
}
