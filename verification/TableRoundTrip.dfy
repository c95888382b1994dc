/**
 EndTable: the finished table reads back as its fields, through a new or a shared vtable,
 and everything written earlier stays as it was.
 */
module TableRoundTrip {
  import opened Bytes
  import opened Wrappers
  import opened Table
  import opened BuilderModel
  import opened TableLayout

  lemma LoadBytesShrinks(d: bytes, e: bytes, off: nat, n: nat)
    requires Extends(d, e) && n <= off <= |d|
    ensures LoadBytes(e, |e| - off, n) == LoadBytes(d, |d| - off, n)
    ensures Load(e, |e| - off, n) == Load(d, |d| - off, n)
  {
    LoadExtends(d, e, |d| - off, n);
  }

  /** A field lookup is an entry of the vtable that the table's first word leads to. */
  lemma LookupEntry(d: bytes, t: int, vtable: int, vt: bytes, id: nat)
    requires LoadSigned(d, t, 4) == Ok(t - vtable)
    requires LoadBytes(d, vtable, |vt|) == Ok(vt)
    requires |vt| >= 4 && |vt| % 2 == 0 && Entry(vt, 0) == |vt| && id % 2 == 0
    ensures GetOptionalFieldOffset(d, t, id) == Ok(if id + 2 <= |vt| then Entry(vt, id) else 0)
  {
    assert d[vtable..vtable + 2] == vt[0..2];
    if id + 2 <= |vt| {
      SliceOfSlice(d, vtable, |vt|, id);
    }
  }

  lemma SliceOfSlice(d: bytes, pos: int, n: nat, id: nat)
    requires 0 <= pos && pos + n <= |d| && id + 2 <= n
    ensures Load(d, pos + id, 2) == Ok(FromLE(d[pos..pos + n][id..id + 2]))
  {
    var s := d[pos..pos + n];
    assert s[id] == d[pos + id] && s[id + 1] == d[pos + id + 1];
    assert d[pos + id..pos + id + 2] == s[id..id + 2];
  }

  /** Remembered vtables were written before the table that is being finished. */
  predicate VTablesWritten(st: Builder) {
    forall v :: v in st.vtables ==> v <= |st.buf.data|
  }

  /** The table's first word leads to the vtable it uses. */
  predicate UsesVTable(d: bytes, loc: nat, vtUse: nat, vt: bytes) {
    && loc <= |d| && vtUse <= |d|
    && LoadSigned(d, |d| - loc, 4) == Ok(vtUse - loc)
    && LoadBytes(d, |d| - vtUse, |vt|) == Ok(vt)
  }

  lemma StoredSOffset(pre: bytes, delta: int, rest: bytes)
    requires -0x8000_0000 <= delta < 0x8000_0000
    ensures LoadSigned(pre + (ToLE(Unsigned(delta, 4), 4) + rest), |pre|, 4) == Ok(delta)
  {
    Pow256Values();
    var s := ToLE(Unsigned(delta, 4), 4);
    assert (pre + (s + rest))[|pre|..|pre| + 4] == s;
    LoadStoredFits(Unsigned(delta, 4), 4);
    SignedUnsigned(delta, 4);
  }

  /** The finished bytes: the new vtable, if any, in front of the table object with its first word filled in. */
  lemma EndTableBytes(st: Builder, start: nat)
    requires CanEnd(st, start) && TableLoc(st) < 0x8000_0000 && UsedVTable(st, start) < 0x8000_0000
    ensures Grew(st.buf, EndTable(st, start).buf) && EndTable(st, start).buf.minAlign >= 4
    ensures var d, isNew := EndTable(st, start).buf.data, SharedVTable(st, start).None?;
            && |d| == TableLoc(st) + (if isNew then |NewVTable(st, start)| else 0)
            && LoadSigned(d, |d| - TableLoc(st), 4) == Ok(UsedVTable(st, start) - TableLoc(st))
            && (isNew ==> LoadBytes(d, 0, |NewVTable(st, start)|) == Ok(NewVTable(st, start)))
  {
    hide NewVTable, UsedVTable, SharedVTable, CanEnd, LoadSigned, LoadBytes, TableObject, Extends, ToLE, Unsigned,
         IsAlign, Aligned;
    TableObjectFacts(st.buf);
    var obj := TableObject(st.buf);
    var vt := NewVTable(st, start);
    var delta: int := UsedVTable(st, start) as int - TableLoc(st);
    var pre := if SharedVTable(st, start).None? then vt else [];
    TableBytes(st.buf.data, pre, delta, obj.data[4..]);
  }

  lemma TableBytes(old_: bytes, pre: bytes, delta: int, rest: bytes)
    requires Extends(old_, rest) && -0x8000_0000 <= delta < 0x8000_0000
    ensures var d := pre + (ToLE(Unsigned(delta, 4), 4) + rest);
            && Extends(old_, d) && |d| == |pre| + 4 + |rest|
            && LoadSigned(d, |pre|, 4) == Ok(delta)
            && LoadBytes(d, 0, |pre|) == Ok(pre)
  {
    var s := ToLE(Unsigned(delta, 4), 4);
    PrependExtends(s, rest);
    PrependExtends(pre, s + rest);
    ExtendsTransitive(old_, rest, s + rest);
    ExtendsTransitive(old_, s + rest, pre + (s + rest));
    StoredSOffset(pre, delta, rest);
    assert (pre + (s + rest))[0..|pre|] == pre;
  }

  lemma SharedVTableFacts(st: Builder, start: nat)
    requires Endable(st, start) && CanEnd(st, start) && VTablesWritten(st)
    ensures var found, vt := SharedVTable(st, start), NewVTable(st, start);
            found.Some? ==>
              && found.value in st.vtables && |vt| <= found.value <= |st.buf.data|
              && LoadBytes(st.buf.data, |st.buf.data| - found.value, |vt|) == Ok(vt)
  {
    hide NewVTable, TableObject;
    var found, vt := SharedVTable(st, start), NewVTable(st, start);
    TableObjectFacts(st.buf);
    var obj := TableObject(st.buf);
    PrependExtends(vt, obj.data);
    ExtendsTransitive(st.buf.data, obj.data, vt + obj.data);
    if found.Some? { LoadBytesShrinks(st.buf.data, vt + obj.data, found.value, |vt|); }
  }

  lemma EndTableUsesVTable(st: Builder, start: nat)
    requires Endable(st, start) && CanEnd(st, start) && VTablesWritten(st)
    ensures UsedVTable(st, start) < 0x8000_0000
    ensures var r := EndTable(st, start);
            && Grew(st.buf, r.buf) && r.buf.minAlign >= 4
            && TableLoc(st) <= |r.buf.data|
            && UsesVTable(r.buf.data, TableLoc(st), UsedVTable(st, start), NewVTable(st, start))
  {
    hide EndTable, NewVTable, SharedVTable, CanEnd, LayoutOk;
    SharedVTableFacts(st, start);
    EndTableBytes(st, start);
    var d, vt, u := EndTable(st, start).buf.data, NewVTable(st, start), UsedVTable(st, start);
    if SharedVTable(st, start).Some? { LoadBytesShrinks(st.buf.data, d, u, |vt|); }
  }

  // ---------- What a table means ----------

  /** The accessor of field `f` on the table at position `t` gives what was added, which is stored unless elided. */
  predicate FieldReads(d: bytes, t: int, f: Field, force: bool) {
    && (GetOptionalFieldOffset(d, t, f.id) == Ok(0) <==> f.Elided(force))
    && if f.Scalar? then GetField(d, t, f.id, f.width, f.def) == Ok(f.value)
       else GetPointer(d, t, f.id) == Ok(if f.target == 0 then None else Some(|d| - f.target))
  }

  /** A stored field lies aligned, counted from the end of the buffer, and a reference points forwards. */
  predicate FieldAligned(d: bytes, t: int, f: Field) {
    && GetOptionalFieldOffset(d, t, f.id).Ok?
    && var fo := GetOptionalFieldOffset(d, t, f.id).value;
    && (fo != 0 ==> t + fo <= |d| && Aligned(|d| - (t + fo), f.Width()) && (f.Ref? ==> f.target < |d| - (t + fo)))
  }

  /** The table at `loc` holds exactly the fields `fs`. */
  ghost predicate TableReads(d: bytes, loc: nat, fs: seq<Field>, force: bool) {
    && loc <= |d| && Aligned(loc, 4)
    && (forall i :: 0 <= i < |fs| ==> FieldReads(d, |d| - loc, fs[i], force) && FieldAligned(d, |d| - loc, fs[i]))
    && (forall id: nat :: id % 2 == 0 && 4 <= id && (forall i :: 0 <= i < |fs| ==> fs[i].id != id) ==>
          GetOptionalFieldOffset(d, |d| - loc, id) == Ok(0))
  }

  /** The vtable the table at `loc` uses lies at an even distance from the end, and so do all its words. */
  predicate VTableEven(d: bytes, loc: nat) {
    var v := GetVTable(d, |d| - loc);
    v.Ok? && 0 <= v.value <= |d| && Aligned(|d| - v.value, 2)
  }

  lemma VTableEvenExtends(d: bytes, e: bytes, loc: nat)
    requires Extends(d, e) && VTableEven(d, loc)
    ensures VTableEven(e, loc)
  {
    hide Aligned;
    LoadExtends(d, e, |d| - loc, 4);
  }

  /** All remembered vtables do. */
  predicate VTablesEven(st: Builder) {
    forall v :: v in st.vtables ==> Aligned(v, 2)
  }

  lemma UsedVTableEven(st: Builder, start: nat)
    requires Endable(st, start) && CanEnd(st, start) && VTablesWritten(st) && VTablesEven(st)
    ensures VTableEven(EndTable(st, start).buf.data, TableLoc(st)) && VTablesEven(EndTable(st, start))
  {
    hide NewVTable, Aligned, TableObject, Padding, PushElement;
    EndTableUsesVTable(st, start);
    TableObjectFacts(st.buf);
    var vt := NewVTable(st, start);
    EvenInFront(|vt|, TableLoc(st));
    assert SharedVTable(st, start).Some? ==> SharedVTable(st, start).value in st.vtables;
  }

  lemma EvenInFront(size: nat, loc: nat)
    requires size % 2 == 0 && Aligned(loc, 4)
    ensures Aligned(size + loc, 2)
  {
    AlignedWeaker(loc, 4, 2);
    RemAdd(loc, size, 2);
    RemIsMod(size, 2);
  }

  lemma CreateTableEven(st: Builder, fs: seq<Field>)
    requires Idle(st) && TableFits(st, fs) && VTablesEven(st)
    ensures VTableEven(CreateTable(st, fs).buf.data, TableOffset(st, fs)) && VTablesEven(CreateTable(st, fs))
  {
    hide EndTable, CanEnd, Endable, TableLoc, AddFields, DistinctIds, AllWellFormed, Stored, Tracks, VTableEven,
         Aligned;
    AddedFieldsEndable(st, fs);
    UsedVTableEven(AddedFields(st, fs), |st.buf.data|);
  }

  lemma TableReadsExtends(d: bytes, e: bytes, loc: nat, fs: seq<Field>, force: bool)
    requires Extends(d, e) && TableReads(d, loc, fs, force)
    ensures TableReads(e, loc, fs, force)
  {
    hide FieldReads, FieldAligned, GetOptionalFieldOffset;
    forall i | 0 <= i < |fs|
      ensures FieldReads(e, |e| - loc, fs[i], force) && FieldAligned(e, |e| - loc, fs[i])
    {
      FieldReadsExtends(d, e, |d| - loc, fs[i], force);
    }
    forall id: nat | id % 2 == 0 && 4 <= id && (forall i :: 0 <= i < |fs| ==> fs[i].id != id)
      ensures GetOptionalFieldOffset(e, |e| - loc, id) == Ok(0)
    {
      FieldOffsetExtends(d, e, |d| - loc, id);
    }
  }

  lemma FieldReadsExtends(d: bytes, e: bytes, t: int, f: Field, force: bool)
    requires Extends(d, e) && FieldReads(d, t, f, force) && FieldAligned(d, t, f)
    ensures FieldReads(e, t + |e| - |d|, f, force) && FieldAligned(e, t + |e| - |d|, f)
  {
    FieldOffsetExtends(d, e, t, f.id);
    if f.Scalar? { FieldExtends(d, e, t, f.id, f.width, f.def); } else { PointerExtends(d, e, t, f.id); }
  }

  lemma EndTableLookup(st: Builder, start: nat, id: nat)
    requires Endable(st, start) && CanEnd(st, start) && VTablesWritten(st)
    requires id % 2 == 0 && 4 <= id
    ensures var d, loc := EndTable(st, start).buf.data, TableLoc(st);
            && loc <= |d|
            && (forall k :: 0 <= k < |st.fields| && st.fields[k].id == id ==>
                  GetOptionalFieldOffset(d, |d| - loc, id) == Ok(loc - st.fields[k].off))
            && ((forall k :: 0 <= k < |st.fields| ==> st.fields[k].id != id) ==>
                  GetOptionalFieldOffset(d, |d| - loc, id) == Ok(0))
  {
    hide EndTable, NewVTable, UsedVTable, TableLoc;
    EndTableUsesVTable(st, start);
    NewVTableDescribes(st, start);
    LookupDescribed(EndTable(st, start).buf.data, TableLoc(st), UsedVTable(st, start), NewVTable(st, start),
                    st.fields, start, id);
  }

  lemma LookupDescribed(d: bytes, loc: nat, u: nat, vt: bytes, fields: seq<FieldLoc>, start: nat, id: nat)
    requires UsesVTable(d, loc, u, vt) && start <= loc && DescribesTable(vt, fields, start, loc) && |vt| % 2 == 0
    requires id % 2 == 0 && 4 <= id
    ensures forall k :: 0 <= k < |fields| && fields[k].id == id ==>
              GetOptionalFieldOffset(d, |d| - loc, id) == Ok(loc - fields[k].off)
    ensures (forall k :: 0 <= k < |fields| ==> fields[k].id != id) ==>
              GetOptionalFieldOffset(d, |d| - loc, id) == Ok(0)
  {
    LookupEntry(d, |d| - loc, |d| - u, vt, id);
  }

  lemma StoredFieldReads(d: bytes, start: nat, loc: nat, off: nat, f: Field, force: bool)
    requires f.WellFormed() && !f.Elided(force) && StoredAt(d, start, off, f) && off < loc <= |d|
    requires GetOptionalFieldOffset(d, |d| - loc, f.id) == Ok(loc - off)
    ensures FieldReads(d, |d| - loc, f, force) && FieldAligned(d, |d| - loc, f)
  {
  }

  // ---------- A whole table ----------

  function AddedFields(st: Builder, fs: seq<Field>): Builder
    requires AllWellFormed(fs, |st.buf.data|)
  {
    AddFields(StartTable(st), fs)
  }

  /** The table can be built: field ids once each, and within the source's size asserts. */
  predicate TableFits(st: Builder, fs: seq<Field>) {
    && AllWellFormed(fs, |st.buf.data|)
    && DistinctIds(fs)
    && var added := AddedFields(st, fs);
    && TableLoc(added) - |st.buf.data| < 0x1_0000
    && TableLoc(added) + VTableSize(added.maxVoffset) < 0x7FFF_FFFF
  }

  /** No table is under construction. */
  predicate Idle(st: Builder) {
    st.fields == [] && st.maxVoffset == 0 && !st.nested && VTablesWritten(st)
  }

  lemma AddedFieldsEndable(st: Builder, fs: seq<Field>)
    requires Idle(st) && TableFits(st, fs)
    ensures Endable(AddedFields(st, fs), |st.buf.data|) && CanEnd(AddedFields(st, fs), |st.buf.data|)
    ensures Adding(StartTable(st), AddedFields(st, fs), Stored(fs, st.forceDefaults))
    ensures VTablesWritten(AddedFields(st, fs))
  {
    var added := AddedFields(st, fs);
    TableObjectFacts(added.buf);
    AddFieldsTracks(StartTable(st), fs);
    StoredDistinct(fs, st.forceDefaults);
    StoredFieldsLayout(added, |st.buf.data|, fs, st.forceDefaults);
    NewVTableDescribes(added, |st.buf.data|);
  }

  lemma StoredFieldsLayout(st: Builder, start: nat, fs: seq<Field>, force: bool)
    requires Tracks(st, start, Stored(fs, force)) && DistinctIds(Stored(fs, force))
    requires forall i :: 0 <= i < |fs| ==> fs[i].WellFormed()
    requires st.maxVoffset + 2 < 0x1_0000 && st.maxVoffset % 2 == 0
    requires TableLoc(st) - start < 0x1_0000
    ensures LayoutOk(st.fields, start, TableLoc(st), VTableSize(st.maxVoffset))
  {
    var s := Stored(fs, force);
    forall k | 0 <= k < |s| ensures s[k].WellFormed() {
      var i := StoredFrom(fs, force, k);
    }
  }

  function CreateTable(st: Builder, fs: seq<Field>): Builder
    requires Idle(st) && TableFits(st, fs)
  {
    AddedFieldsEndable(st, fs);
    EndTable(AddedFields(st, fs), |st.buf.data|)
  }

  /** The offset CreateTable returns. */
  function TableOffset(st: Builder, fs: seq<Field>): nat
    requires AllWellFormed(fs, |st.buf.data|)
  {
    TableLoc(AddedFields(st, fs))
  }

  /**
   Build, then read: for fields in any order, every accessor returns what was added,
   fields not added are absent, stored fields are aligned, and all older bytes are kept.
   */
  lemma CreateTableReads(st: Builder, fs: seq<Field>)
    requires Idle(st) && TableFits(st, fs)
    ensures var r := CreateTable(st, fs);
            && Grew(st.buf, r.buf) && r.buf.minAlign >= 4
            && (forall i :: 0 <= i < |fs| && !fs[i].Elided(st.forceDefaults) ==> r.buf.minAlign >= fs[i].Width())
            && |st.buf.data| < TableOffset(st, fs) <= |r.buf.data|
            && TableReads(r.buf.data, TableOffset(st, fs), fs, st.forceDefaults)
  {
    hide EndTable, AddFields, FieldReads, FieldAligned, CanEnd, AllWellFormed, DistinctIds, GetOptionalFieldOffset,
         Endable, UsesVTable, NewVTable, UsedVTable, Stored, Tracks;
    AddedFieldsEndable(st, fs);
    var added, start, r := AddedFields(st, fs), |st.buf.data|, CreateTable(st, fs);
    var d, loc := r.buf.data, TableOffset(st, fs);
    EndTableUsesVTable(added, start);
    GrewTransitive(st.buf, added.buf, r.buf);
    TableObjectFacts(added.buf);
    forall i | 0 <= i < |fs|
      ensures FieldReads(d, |d| - loc, fs[i], st.forceDefaults) && FieldAligned(d, |d| - loc, fs[i])
      ensures !fs[i].Elided(st.forceDefaults) ==> r.buf.minAlign >= fs[i].Width()
    {
      TableFieldReads(st, fs, i);
    }
    forall id: nat | id % 2 == 0 && 4 <= id && (forall i :: 0 <= i < |fs| ==> fs[i].id != id)
      ensures GetOptionalFieldOffset(d, |d| - loc, id) == Ok(0)
    {
      AbsentField(st, fs, id);
    }
  }

  lemma TableFieldReads(st: Builder, fs: seq<Field>, i: nat)
    requires Idle(st) && TableFits(st, fs) && i < |fs|
    ensures var r, loc := CreateTable(st, fs), TableOffset(st, fs);
            && FieldReads(r.buf.data, |r.buf.data| - loc, fs[i], st.forceDefaults)
            && FieldAligned(r.buf.data, |r.buf.data| - loc, fs[i])
            && (!fs[i].Elided(st.forceDefaults) ==> r.buf.minAlign >= fs[i].Width())
  {
    hide EndTable, AddFields, CanEnd, Endable, TableLoc, Load;
    AddedFieldsEndable(st, fs);
    var added, start, r := AddedFields(st, fs), |st.buf.data|, CreateTable(st, fs);
    if fs[i].Elided(st.forceDefaults) {
      ElidedNotStored(fs, st.forceDefaults, i);
      AbsentField'(st, fs, fs[i].id);
    } else {
      var k := StoredHas(fs, st.forceDefaults, i);
      EndedFieldReads(added, start, Stored(fs, st.forceDefaults), k, st.forceDefaults);
    }
  }

  lemma EndedFieldReads(st: Builder, start: nat, fs: seq<Field>, k: nat, force: bool)
    requires Endable(st, start) && CanEnd(st, start) && VTablesWritten(st)
    requires Tracks(st, start, fs) && k < |fs| && fs[k].WellFormed() && !fs[k].Elided(force)
    ensures var r, loc := EndTable(st, start), TableLoc(st);
            && FieldReads(r.buf.data, |r.buf.data| - loc, fs[k], force)
            && FieldAligned(r.buf.data, |r.buf.data| - loc, fs[k])
            && r.buf.minAlign >= fs[k].Width()
  {
    hide EndTable, TableLoc, FieldReads, FieldAligned, CanEnd, StoredAt, UsesVTable, NewVTable, UsedVTable,
         GetOptionalFieldOffset;
    var d := EndTable(st, start).buf.data;
    EndTableUsesVTable(st, start);
    EndTableLookup(st, start, fs[k].id);
    StoredAtExtends(st.buf.data, d, start, st.fields[k].off, fs[k]);
    StoredFieldReads(d, start, TableLoc(st), st.fields[k].off, fs[k], force);
  }

  lemma ElidedNotStored(fs: seq<Field>, force: bool, i: nat)
    requires DistinctIds(fs) && i < |fs| && fs[i].Elided(force)
    ensures forall k :: 0 <= k < |Stored(fs, force)| ==> Stored(fs, force)[k].id != fs[i].id
  {
    forall k | 0 <= k < |Stored(fs, force)| ensures Stored(fs, force)[k].id != fs[i].id {
      var j := StoredFrom(fs, force, k);
    }
  }

  lemma AbsentField'(st: Builder, fs: seq<Field>, id: nat)
    requires Idle(st) && TableFits(st, fs) && id % 2 == 0 && 4 <= id
    requires forall k :: 0 <= k < |Stored(fs, st.forceDefaults)| ==> Stored(fs, st.forceDefaults)[k].id != id
    ensures var d, loc := CreateTable(st, fs).buf.data, TableOffset(st, fs);
            GetOptionalFieldOffset(d, |d| - loc, id) == Ok(0)
  {
    hide EndTable, AddFields, CanEnd, Endable, AllWellFormed, DistinctIds, GetOptionalFieldOffset, Stored;
    AddedFieldsEndable(st, fs);
    EndTableLookup(AddedFields(st, fs), |st.buf.data|, id);
  }

  lemma AbsentField(st: Builder, fs: seq<Field>, id: nat)
    requires Idle(st) && TableFits(st, fs) && id % 2 == 0 && 4 <= id
    requires forall i :: 0 <= i < |fs| ==> fs[i].id != id
    ensures var d, loc := CreateTable(st, fs).buf.data, TableOffset(st, fs);
            GetOptionalFieldOffset(d, |d| - loc, id) == Ok(0)
  {
    forall k | 0 <= k < |Stored(fs, st.forceDefaults)| ensures Stored(fs, st.forceDefaults)[k].id != id {
      var j := StoredFrom(fs, st.forceDefaults, k);
    }
    AbsentField'(st, fs, id);
  }
}
