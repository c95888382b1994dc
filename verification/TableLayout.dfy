/**
 Tables: whatever fields are added, in whatever order, the finished table reads back as
 the values that were added, with elided defaults supplied by the reader.
 */
module TableLayout {
  import opened Bytes
  import opened Wrappers
  import opened Table
  import opened BuilderModel

  // ---------- Prepending ----------

  lemma PrependExtends(s: bytes, d: bytes)
    ensures Extends(d, s + d)
  {
  }

  lemma LoadFront(s: bytes, d: bytes, value: nat, w: nat)
    requires s == ToLE(value, w) && value < Pow256(w)
    ensures Load(s + d, 0, w) == Ok(value)
  {
    LoadStoredFits(value, w);
    assert (s + d)[0..w] == s;
  }

  /** What every writing step does: bytes are only put in front, and alignment needs only grow. */
  predicate Grew(b: Buf, r: Buf) {
    && Extends(b.data, r.data)
    && r.minAlign >= b.minAlign
    && (IsAlign(b.minAlign) ==> IsAlign(r.minAlign))
  }

  lemma GrewTransitive(a: Buf, b: Buf, c: Buf)
    requires Grew(a, b) && Grew(b, c)
    ensures Grew(a, c)
  {
    ExtendsTransitive(a.data, b.data, c.data);
  }

  lemma AlignFacts(b: Buf, a: nat)
    requires IsAlign(a)
    ensures Grew(b, Align(b, a))
    ensures |b.data| <= |Align(b, a).data| < |b.data| + a
    ensures Aligned(|Align(b, a).data|, a) && Align(b, a).minAlign >= a
  {
    assert a > 0;
    hide IsAlign, Padding, Rem;
    PrependExtends(Zeros(Padding(|b.data|, a)), b.data);
  }

  /** Pre-aligning leaves the buffer so that `len` more bytes end on a multiple of `a`. */
  lemma PreAlignFacts(b: Buf, len: nat, a: nat)
    requires IsAlign(a)
    ensures Grew(b, PreAlign(b, len, a))
    ensures |b.data| <= |PreAlign(b, len, a).data| < |b.data| + a
    ensures len > 0 ==> Aligned(|PreAlign(b, len, a).data| + len, a) && PreAlign(b, len, a).minAlign >= a
  {
    assert a > 0;
    hide IsAlign, Padding, Rem;
    if len > 0 {
      var p := Padding(|b.data| + len, a);
      PrependExtends(Zeros(p), b.data);
      assert |b.data| + len + p == p + |b.data| + len;
    } else {
      assert b.data[|b.data| - |b.data|..] == b.data;
    }
  }

  /** A pushed scalar is aligned, readable, and leaves everything already written alone. */
  lemma PushElementFacts(b: Buf, w: nat, value: nat)
    requires IsAlign(w) && value < Pow256(w)
    ensures Grew(b, PushElement(b, w, value))
    ensures |b.data| + w <= |PushElement(b, w, value).data| < |b.data| + 2 * w
    ensures Aligned(|PushElement(b, w, value).data|, w) && PushElement(b, w, value).minAlign >= w
    ensures Load(PushElement(b, w, value).data, 0, w) == Ok(value)
  {
    assert w > 0;
    hide IsAlign, Padding, Rem, FromLE;
    AlignFacts(b, w);
    var padded := Align(b, w);
    PrependExtends(ToLE(value, w), padded.data);
    GrewTransitive(b, padded, PushElement(b, w, value));
    LoadFront(ToLE(value, w), padded.data, value, w);
  }

  lemma AlignTwice(b: Buf, a: nat)
    requires IsAlign(a)
    ensures Align(Align(b, a), a) == Align(b, a)
  {
    AlignFacts(b, a);
    PaddingUnique(|Align(b, a).data|, a, 0);
    assert Zeros(0) + Align(b, a).data == Align(b, a).data;
  }

  /** A pushed offset refers to the object it was made from. */
  lemma PushOffsetFacts(b: Buf, off: nat)
    requires 0 < off <= |b.data| && |b.data| < 0x8000_0000
    ensures var r := PushOffset(b, off);
            && Grew(b, r)
            && |b.data| + 4 <= |r.data| < |b.data| + 8
            && Aligned(|r.data|, 4) && r.minAlign >= 4
            && Load(r.data, 0, 4) == Ok(|r.data| - off)
  {
    Pow256Values();
    AlignFacts(b, 4);
    AlignTwice(b, 4);
    var st1 := Align(b, 4);
    PushElementFacts(st1, 4, ReferTo(st1, off));
    GrewTransitive(b, st1, PushOffset(b, off));
  }

  // ---------- Fields ----------

  datatype Field = Scalar(id: nat, width: nat, value: nat, def: nat) | Ref(id: nat, target: nat)
  {
    function Width(): nat { if Scalar? then width else 4 }

    predicate WellFormed() {
      && id % 2 == 0 && 4 <= id && id + 2 < 0x1_0000
      && (Scalar? ==> (width == 1 || width == 2 || width == 4 || width == 8)
                      && value < Pow256(width) && def < Pow256(width))
    }

    predicate Elided(forceDefaults: bool) {
      if Scalar? then value == def && !forceDefaults else target == 0
    }
  }

  predicate AllWellFormed(fs: seq<Field>, size: nat) {
    forall i :: 0 <= i < |fs| ==> fs[i].WellFormed() && (fs[i].Ref? ==> fs[i].target <= size)
  }

  predicate DistinctIds(fs: seq<Field>) {
    forall i, j :: 0 <= i < j < |fs| ==> fs[i].id != fs[j].id
  }

  function AddField(st: Builder, f: Field): (r: Builder)
    requires f.WellFormed() && (f.Ref? ==> f.target <= |st.buf.data|)
    ensures |r.buf.data| >= |st.buf.data| && r.forceDefaults == st.forceDefaults
  {
    if f.Scalar? then AddElement(st, f.id, f.width, f.value, f.def) else AddOffset(st, f.id, f.target)
  }

  function AddFields(st: Builder, fs: seq<Field>): (r: Builder)
    requires AllWellFormed(fs, |st.buf.data|)
    ensures |r.buf.data| >= |st.buf.data| && r.forceDefaults == st.forceDefaults
    decreases |fs|
  {
    if fs == [] then st
    else AddField(AddFields(st, fs[..|fs| - 1]), fs[|fs| - 1])
  }

  /** The fields that end up in the table, in the order they were added. */
  function Stored(fs: seq<Field>, forceDefaults: bool): seq<Field>
    decreases |fs|
  {
    if fs == [] then []
    else
      var n := |fs| - 1;
      Stored(fs[..n], forceDefaults) + (if fs[n].Elided(forceDefaults) then [] else [fs[n]])
  }

  /** The field's bytes lie aligned at `off`, after the table was started. */
  predicate StoredAt(d: bytes, start: nat, off: nat, f: Field) {
    && start < off <= |d| && off >= start + f.Width() && Aligned(off, f.Width())
    && (f.Scalar? ==> Load(d, |d| - off, f.width) == Ok(f.value))
    && (f.Ref? ==> 0 < f.target <= start && Load(d, |d| - off, 4) == Ok(off - f.target))
  }

  lemma StoredAtExtends(d: bytes, e: bytes, start: nat, off: nat, f: Field)
    requires Extends(d, e) && StoredAt(d, start, off, f)
    ensures StoredAt(e, start, off, f)
  {
    LoadExtends(d, e, |d| - off, f.Width());
  }

  /** Effect of adding one field that is not elided. */
  predicate AddedField(st: Builder, r: Builder, start: nat, f: Field) {
    && Grew(st.buf, r.buf)
    && |st.buf.data| < |r.buf.data|
    && StoredAt(r.buf.data, start, |r.buf.data|, f)
    && r.buf.minAlign >= f.Width()
    && r == TrackField(st, r.buf, f.id)
  }

  lemma AddScalarFacts(st: Builder, start: nat, f: Field)
    requires f.Scalar? && f.WellFormed() && !f.Elided(st.forceDefaults)
    requires start <= |st.buf.data|
    ensures AddedField(st, AddField(st, f), start, f)
  {
    var r := PushElement(st.buf, f.width, f.value);
    assert AddField(st, f) == TrackField(st, r, f.id);
    PushElementFacts(st.buf, f.width, f.value);
    JustPushed(st, r, start, f);
  }

  lemma JustPushed(st: Builder, r: Buf, start: nat, f: Field)
    requires f.Scalar? && start <= |st.buf.data|
    requires Grew(st.buf, r) && |st.buf.data| + f.width <= |r.data|
    requires Aligned(|r.data|, f.width) && r.minAlign >= f.width
    requires Load(r.data, 0, f.width) == Ok(f.value)
    ensures AddedField(st, TrackField(st, r, f.id), start, f)
  {
  }

  lemma AddRefFacts(st: Builder, start: nat, f: Field)
    requires f.Ref? && f.WellFormed() && !f.Elided(st.forceDefaults) && f.target <= start
    requires start <= |st.buf.data| < 0x8000_0000
    ensures AddedField(st, AddField(st, f), start, f)
  {
    PushOffsetFacts(st.buf, f.target);
    assert AddField(st, f) == TrackField(st, PushOffset(st.buf, f.target), f.id);
  }

  lemma AddedFieldFacts(st: Builder, start: nat, f: Field)
    requires f.WellFormed() && !f.Elided(st.forceDefaults) && (f.Ref? ==> f.target <= start)
    requires start <= |st.buf.data| < 0x8000_0000
    ensures AddedField(st, AddField(st, f), start, f)
  {
    if f.Scalar? { AddScalarFacts(st, start, f); } else { AddRefFacts(st, start, f); }
  }

  /** `fields` of the builder lists exactly the stored fields, each holding its value. */
  predicate Tracks(st: Builder, start: nat, fs: seq<Field>) {
    && |st.fields| == |fs|
    && start <= |st.buf.data|
    && (forall k :: 0 <= k < |fs| ==>
          st.fields[k].id == fs[k].id && StoredAt(st.buf.data, start, st.fields[k].off, fs[k]))
    && (forall k :: 0 <= k < |fs| ==> fs[k].id <= st.maxVoffset && fs[k].Width() <= st.buf.minAlign)
    && (st.maxVoffset == 0 || exists k :: 0 <= k < |fs| && fs[k].id == st.maxVoffset)
  }

  lemma {:induction false} AddFieldsTracks(st: Builder, fs: seq<Field>)
    requires st.fields == [] && st.maxVoffset == 0
    requires AllWellFormed(fs, |st.buf.data|) && |AddFields(st, fs).buf.data| < 0x8000_0000
    ensures Adding(st, AddFields(st, fs), Stored(fs, st.forceDefaults))
    decreases |fs|
  {
    hide Adding, AddField, AddedField, Tracks;
    if fs == [] {
      AddingNothing(st);
    } else {
      var n := |fs| - 1;
      var mid := AddFields(st, fs[..n]);
      AddFieldsTracks(st, fs[..n]);
      AddingKeeps(st, mid, Stored(fs[..n], st.forceDefaults));
      if !fs[n].Elided(st.forceDefaults) {
        AddedFieldFacts(mid, |st.buf.data|, fs[n]);
        AddedFieldTracks(st, mid, AddField(mid, fs[n]), Stored(fs[..n], st.forceDefaults), fs[n]);
      } else {
        ElidedAddsNothing(mid, fs[n]);
        assert Stored(fs, st.forceDefaults) == Stored(fs[..n], st.forceDefaults);
      }
    }
  }

  lemma ElidedAddsNothing(st: Builder, f: Field)
    requires f.WellFormed() && f.Elided(st.forceDefaults) && (f.Ref? ==> f.target <= |st.buf.data|)
    ensures AddField(st, f) == st
  {
  }

  lemma AddingNothing(st: Builder)
    requires st.fields == [] && st.maxVoffset == 0
    ensures Adding(st, st, [])
  {
  }

  lemma AddingKeeps(st: Builder, r: Builder, fs: seq<Field>)
    requires Adding(st, r, fs)
    ensures r.forceDefaults == st.forceDefaults && |st.buf.data| <= |r.buf.data|
  {
  }

  /** The fields added since the table was started at `st`. */
  predicate Adding(st: Builder, r: Builder, fs: seq<Field>) {
    && Grew(st.buf, r.buf)
    && Tracks(r, |st.buf.data|, fs)
    && r.maxVoffset + 2 < 0x1_0000 && r.maxVoffset % 2 == 0
    && r == st.(buf := r.buf, fields := r.fields, maxVoffset := r.maxVoffset)
  }

  lemma AddedFieldTracks(st: Builder, mid: Builder, r: Builder, fs: seq<Field>, f: Field)
    requires f.WellFormed() && Adding(st, mid, fs) && AddedField(mid, r, |st.buf.data|, f)
    ensures Adding(st, r, fs + [f])
  {
    GrewTransitive(st.buf, mid.buf, r.buf);
    TracksOneMore(mid, r, |st.buf.data|, fs, f);
  }

  lemma TracksOneMore(st: Builder, r: Builder, start: nat, fs: seq<Field>, f: Field)
    requires f.WellFormed() && Tracks(st, start, fs) && AddedField(st, r, start, f)
    ensures Tracks(r, start, fs + [f])
  {
    var s := fs + [f];
    assert s[|fs|] == f;
    forall k | 0 <= k < |s|
      ensures r.fields[k].id == s[k].id && StoredAt(r.buf.data, start, r.fields[k].off, s[k])
    {
      if k < |fs| { StoredAtExtends(st.buf.data, r.buf.data, start, st.fields[k].off, fs[k]); }
    }
    if r.maxVoffset != 0 && f.id <= st.maxVoffset {
      var k :| 0 <= k < |fs| && fs[k].id == st.maxVoffset;
      assert s[k].id == r.maxVoffset;
    }
  }

  /** Every field that is not elided is stored. */
  lemma {:induction false} StoredHas(fs: seq<Field>, force: bool, i: nat) returns (k: nat)
    requires i < |fs| && !fs[i].Elided(force)
    ensures k < |Stored(fs, force)| && Stored(fs, force)[k] == fs[i]
    decreases |fs|
  {
    var n := |fs| - 1;
    if i < n { k := StoredHas(fs[..n], force, i); } else { k := |Stored(fs[..n], force)|; }
  }

  /** Only given fields are stored. */
  lemma {:induction false} StoredFrom(fs: seq<Field>, force: bool, k: nat) returns (i: nat)
    requires k < |Stored(fs, force)|
    ensures i < |fs| && Stored(fs, force)[k] == fs[i] && !fs[i].Elided(force)
    decreases |fs|
  {
    var n := |fs| - 1;
    if k < |Stored(fs[..n], force)| { i := StoredFrom(fs[..n], force, k); } else { i := n; }
  }

  lemma {:induction false} StoredDistinct(fs: seq<Field>, force: bool)
    requires DistinctIds(fs)
    ensures DistinctIds(Stored(fs, force))
    decreases |fs|
  {
    if fs != [] {
      var n := |fs| - 1;
      StoredDistinct(fs[..n], force);
      forall j | 0 <= j < |Stored(fs[..n], force)|
        ensures Stored(fs[..n], force)[j].id != fs[n].id
      {
        var i := StoredFrom(fs[..n], force, j);
      }
    }
  }

  // ---------- Vtables ----------

  /** The 16-bit entry of a vtable at `id`. */
  function Entry(vt: bytes, id: nat): nat
    requires id + 2 <= |vt|
  {
    FromLE(vt[id..id + 2])
  }

  lemma WriteAtEntry(b: bytes, pos: nat, value: nat, id: nat)
    requires pos + 2 <= |b| && id + 2 <= |b| && value < 0x1_0000
    requires id == pos || id + 2 <= pos || pos + 2 <= id
    ensures Entry(WriteAt(b, pos, ToLE(value, 2)), id) == if id == pos then value else Entry(b, id)
  {
    Pow256Values();
    LoadStoredFits(value, 2);
    var r := WriteAt(b, pos, ToLE(value, 2));
    if id == pos {
      assert r[id..id + 2] == ToLE(value, 2);
    } else {
      assert r[id..id + 2] == b[id..id + 2];
    }
  }

  lemma {:induction false} FillHit(vt: bytes, fields: seq<FieldLoc>, loc: nat, k: nat)
    requires FieldsFit(fields, loc, |vt|) && k < |fields|
    requires forall j :: 0 <= j < |fields| ==> fields[j].id % 2 == 0 && loc - fields[j].off < 0x1_0000
    requires forall i, j :: 0 <= i < j < |fields| ==> fields[i].id != fields[j].id
    ensures Entry(FillVTable(vt, fields, loc), fields[k].id) == loc - fields[k].off
    decreases |fields|
  {
    var n := |fields| - 1;
    WriteAtEntry(FillVTable(vt, fields[..n], loc), fields[n].id, loc - fields[n].off, fields[k].id);
    if k < n { FillHit(vt, fields[..n], loc, k); }
  }

  lemma {:induction false} FillMiss(vt: bytes, fields: seq<FieldLoc>, loc: nat, id: nat)
    requires FieldsFit(fields, loc, |vt|)
    requires id % 2 == 0 && id + 2 <= |vt|
    requires forall j :: 0 <= j < |fields| ==>
               fields[j].id % 2 == 0 && fields[j].id != id && loc - fields[j].off < 0x1_0000
    ensures Entry(FillVTable(vt, fields, loc), id) == Entry(vt, id)
    decreases |fields|
  {
    hide FromLE, ToLE, WriteAt, Entry;
    if fields != [] {
      var n := |fields| - 1;
      FillMiss(vt, fields[..n], loc, id);
      WriteAtEntry(FillVTable(vt, fields[..n], loc), fields[n].id, loc - fields[n].off, id);
    }
  }

  lemma EmptyEntries(size: nat, tableSize: nat, id: nat)
    requires size >= 4 && size < 0x1_0000 && tableSize < 0x1_0000 && id % 2 == 0 && id + 2 <= size
    ensures Entry(EmptyVTable(size, tableSize), id) == if id == 0 then size else if id == 2 then tableSize else 0
  {
    Pow256Values();
    WriteAtEntry(Zeros(size), 2, tableSize, id);
    WriteAtEntry(WriteAt(Zeros(size), 2, ToLE(tableSize, 2)), 0, size, id);
    assert Entry(Zeros(size), id) == 0 by {
      var z := Zeros(size)[id..id + 2];
      assert z == [0, 0];
      assert FromLE([0, 0]) == 0;
    }
  }

  /** The shape EndTable relies on: each field once, at its own slot, within reach of a 16-bit position. */
  predicate LayoutOk(fields: seq<FieldLoc>, start: nat, loc: nat, size: nat) {
    && 4 <= size < 0x1_0000 && size % 2 == 0
    && start <= loc && loc - start < 0x1_0000
    && (forall k :: 0 <= k < |fields| ==>
          && fields[k].id % 2 == 0 && 4 <= fields[k].id && fields[k].id + 2 <= size
          && start < fields[k].off < loc)
    && (forall j, k :: 0 <= j < k < |fields| ==> fields[j].id != fields[k].id)
  }

  /** A vtable names its own size, the table's size and the position of every stored field, and no other. */
  predicate DescribesTable(vt: bytes, fields: seq<FieldLoc>, start: nat, loc: nat) {
    && |vt| >= 4
    && Entry(vt, 0) == |vt|
    && Entry(vt, 2) == loc - start
    && (forall k :: 0 <= k < |fields| ==> fields[k].id + 2 <= |vt| && Entry(vt, fields[k].id) == loc - fields[k].off)
    && (forall id :: && id % 2 == 0 && 4 <= id && id + 2 <= |vt|
                     && (forall k :: 0 <= k < |fields| ==> fields[k].id != id) ==>
          Entry(vt, id) == 0)
  }

  lemma FilledDescribes(vt: bytes, fields: seq<FieldLoc>, start: nat, loc: nat, size: nat)
    requires LayoutOk(fields, start, loc, size) && FieldsFit(fields, loc, size)
    requires vt == FillVTable(EmptyVTable(size, loc - start), fields, loc)
    ensures DescribesTable(vt, fields, start, loc)
  {
    hide FillVTable, Entry, WriteAt, ToLE;
    var vt0 := EmptyVTable(size, loc - start);
    FillMiss(vt0, fields, loc, 0);
    FillMiss(vt0, fields, loc, 2);
    EmptyEntries(size, loc - start, 0);
    EmptyEntries(size, loc - start, 2);
    forall k | 0 <= k < |fields| ensures Entry(vt, fields[k].id) == loc - fields[k].off {
      FillHit(vt0, fields, loc, k);
    }
    forall id | id % 2 == 0 && 4 <= id && id + 2 <= |vt| && (forall k :: 0 <= k < |fields| ==> fields[k].id != id)
      ensures Entry(vt, id) == 0
    {
      FillMiss(vt0, fields, loc, id);
      EmptyEntries(size, loc - start, id);
    }
  }

  /** What the caller of EndTable has to respect: the asserts of the source, and the buffer size limit. */
  predicate Endable(st: Builder, start: nat) {
    && start <= |st.buf.data|
    && LayoutOk(st.fields, start, TableLoc(st), VTableSize(st.maxVoffset))
    && TableLoc(st) + VTableSize(st.maxVoffset) < 0x7FFF_FFFF
  }

  lemma NewVTableDescribes(st: Builder, start: nat)
    requires Endable(st, start)
    ensures CanEnd(st, start)
    ensures DescribesTable(NewVTable(st, start), st.fields, start, TableLoc(st))
  {
    hide FillVTable, EmptyVTable, TableLoc, DescribesTable;
    FilledDescribes(NewVTable(st, start), st.fields, start, TableLoc(st), VTableSize(st.maxVoffset));
  }

  lemma TableObjectFacts(b: Buf)
    ensures var r := TableObject(b);
            && Grew(b, r) && r.minAlign >= 4
            && |b.data| + 4 <= |r.data| < |b.data| + 8 && Aligned(|r.data|, 4)
            && Extends(b.data, r.data[4..])
  {
    Pow256Values();
    PushElementFacts(b, 4, 0);
    var p := Padding(|b.data|, 4);
    assert TableObject(b).data[4..] == Zeros(p) + b.data;
  }
}
