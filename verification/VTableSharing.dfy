/**
 Sharing vtables is a compression that keeps every table's meaning: it never changes what
 a field lookup finds, never disturbs what was written before, and remembers each layout once.
 */
module VTableSharing {
  import opened Bytes
  import opened Wrappers
  import opened Table
  import opened BuilderModel
  import opened TableLayout
  import opened TableRoundTrip

  /** The vtable at `v`, as far as its own size field says. */
  function VTableAt(d: bytes, v: nat): Checked<bytes> {
    var n :- Load(d, |d| - v, 2);
    LoadBytes(d, |d| - v, n)
  }

  lemma SameVTableMeans(d: bytes, v: nat, vt: bytes)
    ensures SameVTable(d, v, vt) <==> (VTableAt(d, v) == Ok(vt) && Load(d, |d| - v, 2) == Ok(|vt|))
  {
  }

  lemma VTableAtSize(d: bytes, v: nat)
    requires VTableAt(d, v).Ok?
    ensures Load(d, |d| - v, 2) == Ok(|VTableAt(d, v).value|)
  {
  }

  lemma VTableAtExtends(d: bytes, e: bytes, v: nat)
    requires Extends(d, e) && VTableAt(d, v).Ok?
    ensures VTableAt(e, v) == VTableAt(d, v)
  {
    LoadExtends(d, e, |d| - v, 2);
    LoadExtends(d, e, |d| - v, Load(d, |d| - v, 2).value);
  }

  /** Every remembered vtable can be read, and when sharing is on no two are alike. */
  predicate VTablesOk(st: Builder) {
    && (forall i :: 0 <= i < |st.vtables| ==> VTableAt(st.buf.data, st.vtables[i]).Ok?)
    && (st.dedup ==> forall i, j :: 0 <= i < j < |st.vtables| ==>
          VTableAt(st.buf.data, st.vtables[i]) != VTableAt(st.buf.data, st.vtables[j]))
  }

  lemma VTablesOkExtends(st: Builder, r: Builder)
    requires VTablesOk(st) && Extends(st.buf.data, r.buf.data) && r.vtables == st.vtables && r.dedup == st.dedup
    ensures VTablesOk(r)
    ensures forall i :: 0 <= i < |st.vtables| ==>
              VTableAt(r.buf.data, st.vtables[i]) == VTableAt(st.buf.data, st.vtables[i])
  {
    hide VTableAt, Extends;
    forall i | 0 <= i < |st.vtables|
      ensures VTableAt(r.buf.data, st.vtables[i]) == VTableAt(st.buf.data, st.vtables[i])
    {
      VTableAtExtends(st.buf.data, r.buf.data, st.vtables[i]);
    }
  }

  lemma NewVTableReadable(st: Builder, start: nat)
    requires Endable(st, start) && CanEnd(st, start) && VTablesWritten(st)
    ensures VTableAt(EndTable(st, start).buf.data, UsedVTable(st, start)) == Ok(NewVTable(st, start))
  {
    EndTableUsesVTable(st, start);
    NewVTableDescribes(st, start);
    UsedVTableReads(EndTable(st, start).buf.data, TableLoc(st), UsedVTable(st, start), NewVTable(st, start));
  }

  lemma UsedVTableReads(d: bytes, loc: nat, u: nat, vt: bytes)
    requires UsesVTable(d, loc, u, vt) && |vt| >= 4 && Entry(vt, 0) == |vt|
    ensures VTableAt(d, u) == Ok(vt)
  {
    assert d[|d| - u..|d| - u + 2] == vt[0..2];
  }

  /** No remembered vtable equals one that the search did not find. */
  lemma NotFoundMeansNew(st: Builder, start: nat)
    requires Endable(st, start) && CanEnd(st, start) && VTablesOk(st) && VTablesWritten(st)
    requires st.dedup && SharedVTable(st, start).None?
    ensures forall i :: 0 <= i < |st.vtables| ==> VTableAt(st.buf.data, st.vtables[i]) != Ok(NewVTable(st, start))
  {
    hide VTableAt, NewVTable, TableObject, SameVTable;
    TableObjectFacts(st.buf);
    var vt, obj := NewVTable(st, start), TableObject(st.buf);
    var e := vt + obj.data;
    PrependExtends(vt, obj.data);
    ExtendsTransitive(st.buf.data, obj.data, e);
    forall i | 0 <= i < |st.vtables| ensures VTableAt(st.buf.data, st.vtables[i]) != Ok(vt) {
      var v := st.vtables[i];
      assert v in st.vtables && !SameVTable(e, v, vt);
      VTableAtExtends(st.buf.data, e, v);
      VTableAtSize(e, v);
      SameVTableMeans(e, v, vt);
    }
  }

  /** EndTable keeps the remembered vtables readable and pairwise different. */
  lemma EndTableKeepsVTables(st: Builder, start: nat)
    requires Endable(st, start) && CanEnd(st, start) && VTablesOk(st) && VTablesWritten(st)
    ensures VTablesOk(EndTable(st, start))
  {
    hide VTableAt, NewVTable, UsedVTable, SharedVTable, VTablesWritten, CanEnd, Endable;
    var r := EndTable(st, start);
    EndTableUsesVTable(st, start);
    VTablesOkExtends(st, st.(buf := r.buf));
    NewVTableReadable(st, start);
    if st.dedup && SharedVTable(st, start).None? { NotFoundMeansNew(st, start); }
  }

  /** A field lookup on the finished table finds the same position with sharing on and off. */
  lemma SharingKeepsLookups(st: Builder, start: nat, id: nat)
    requires Endable(st, start) && CanEnd(st, start) && VTablesWritten(st)
    requires id % 2 == 0 && 4 <= id
    ensures var on, off := EndTable(st.(dedup := true), start).buf.data, EndTable(st.(dedup := false), start).buf.data;
            && TableLoc(st) <= |on| <= |off|
            && GetOptionalFieldOffset(on, |on| - TableLoc(st), id).Ok?
            && GetOptionalFieldOffset(on, |on| - TableLoc(st), id)
                == GetOptionalFieldOffset(off, |off| - TableLoc(st), id)
  {
    hide EndTable, NewVTable, CanEnd, Endable, GetOptionalFieldOffset;
    SwitchSharing(st, start, true);
    SwitchSharing(st, start, false);
    EndTableLookup(st.(dedup := true), start, id);
    EndTableLookup(st.(dedup := false), start, id);
  }

  lemma SwitchSharing(st: Builder, start: nat, dedup: bool)
    requires Endable(st, start) && CanEnd(st, start) && VTablesWritten(st)
    ensures var r := st.(dedup := dedup);
            Endable(r, start) && CanEnd(r, start) && VTablesWritten(r) && TableLoc(r) == TableLoc(st)
            && |EndTable(st.(dedup := true), start).buf.data| <= |EndTable(r, start).buf.data|
  {
  }
}
