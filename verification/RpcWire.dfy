/**
 What an RPC message looks like on the wire, to the byte position: root offset, vtable,
 table, and the two objects it refers to, under the generated field numbers.
 */
module RpcWire {
  import opened Bytes
  import opened Wrappers
  import opened Table
  import opened BuilderModel
  import opened TableLayout
  import opened TableRoundTrip
  import opened Objects
  import opened ExactSizes
  import LeastSizes
  import opened RpcMessage
  import opened RpcCodec

  /** The positions of method and payload: what is written first lies last. */
  function NamePosition(order: Order, msgType: int, id: nat, payload: bytes): nat {
    16 + TableSize(msgType, id) + if order == MethodFirst then 4 + Rounded(|payload|) else 0
  }

  function PayloadPosition(order: Order, msgType: int, id: nat, name: bytes): nat {
    16 + TableSize(msgType, id) + if order == MethodFirst then 0 else 4 + Rounded(|name| + 1)
  }

  /** A word for the root, six half-words of vtable, the table, and then the objects. */
  ghost predicate Wire(d: bytes, order: Order, msgType: int, id: nat, name: bytes, payload: bytes) {
    && GetRoot(d) == Ok(16) && GetVTable(d, 16) == Ok(4)
    && Load(d, 4, 2) == Ok(12) && Load(d, 6, 2) == Ok(TableSize(msgType, id))
    && GetOptionalFieldOffset(d, 16, 4) == Ok(if msgType == 0 then 0 else 7)
    && GetOptionalFieldOffset(d, 16, 6) == Ok(if id == 0 then 0 else TableSize(msgType, id) - 12)
    && GetOptionalFieldOffset(d, 16, 8) == Ok(TableSize(msgType, id) - 8)
    && GetOptionalFieldOffset(d, 16, 10) == Ok(TableSize(msgType, id) - 4)
    && GetField(d, 16, 4, 1, 0) == Ok(Unsigned(msgType, 1))
    && GetField(d, 16, 6, 4, 0) == Ok(id)
    && GetPointer(d, 16, 8) == Ok(Some(NamePosition(order, msgType, id, payload)))
    && GetPointer(d, 16, 10) == Ok(Some(PayloadPosition(order, msgType, id, name)))
    && StringBytes(d, NamePosition(order, msgType, id, payload)) == Ok((name, 0))
    && VectorBytes(d, PayloadPosition(order, msgType, id, name), 1) == Ok(payload)
    && |d| == 16 + TableSize(msgType, id) + (4 + Rounded(|name| + 1)) + (4 + Rounded(|payload|))
  }

  /** Where each argument ends up, counted from the end. */
  lemma ArgumentOffsets(order: Order, name: bytes, payload: bytes)
    requires |name| < LIMIT && |payload| < LIMIT
    ensures var a := WriteArguments(order, name, payload);
            var n, p := Rounded(|name| + 1) + 4, Rounded(|payload|) + 4;
            && |a.buf.data| == n + p
            && a.name == (if order == MethodFirst then n else n + p)
            && a.payload == (if order == MethodFirst then n + p else p)
  {
    hide CreateString, CreateVector, StringReads, VectorReads, Rounded, Aligned;
    EmptyIsTidy();
    match order
    case MethodFirst =>
      StringWritten(EMPTY.buf, name);
      PayloadWritten(CreateString(EMPTY.buf, name), payload);
    case PayloadFirst =>
      PayloadWritten(EMPTY.buf, payload);
      StringWritten(CreateVector(EMPTY.buf, |payload|, 1, payload), name);
  }

  /** The field records of the message, on `n` bytes of arguments. */
  function Records(n: nat, msgType: int, id: nat): seq<FieldLoc> {
    var ids := if id == 0 then [] else [FieldLoc(n + 12, 6)];
    var types := if msgType == 0 then [] else [FieldLoc(n + 8 + (if id == 0 then 0 else 4) + 1, 4)];
    [FieldLoc(n + 4, 10), FieldLoc(n + 8, 8)] + ids + types
  }

  lemma RecordsAre(st: Builder, msgType: int, id: nat, name: nat, payload: nat)
    requires IsType(msgType) && AllWellFormed(RpcFields(msgType, id, name, payload), |st.buf.data|)
    requires Tidy(st.buf) && !st.forceDefaults && st.maxVoffset == 0 && st.fields == [] && name > 0 && payload > 0
    ensures AddFields(st, RpcFields(msgType, id, name, payload)).fields == Records(|st.buf.data|, msgType, id)
  {
    hide AddFields, RpcFields, TableObject, Aligned, PushElement;
    FieldByField(st, msgType, id, name, payload);
    OffsetExact(st, VT_PAYLOAD, payload);
    var s1 := AddOffset(st, VT_PAYLOAD, payload);
    OffsetExact(s1, VT_METHOD, name);
    var s2 := AddOffset(s1, VT_METHOD, name);
    ElementExact(s2, VT_ID, 4, id);
    var s3 := AddElement(s2, VT_ID, 4, id, 0);
    ByteExact(s3.buf, Unsigned(msgType, 1));
    TypeStored(msgType);
  }

  lemma ByteExact(b: Buf, value: nat)
    ensures |PushElement(b, 1, value).data| == |b.data| + 1
  {
  }

  lemma TypeStored(msgType: int)
    requires IsType(msgType)
    ensures Unsigned(msgType, 1) == 0 <==> msgType == 0
  {
    Pow256Values();
  }

  /** The table in the finished builder: where each field lies. */
  lemma TablePositions(a: Arguments, msgType: int, id: nat)
    requires IsType(msgType) && Tidy(a.buf) && a.name > 0 && a.payload > 0
    requires Idle(ArgumentState(a))
    requires TableFits(ArgumentState(a), RpcFields(msgType, id, a.name, a.payload))
    requires var added := AddedFields(ArgumentState(a), RpcFields(msgType, id, a.name, a.payload));
             added.maxVoffset == VT_PAYLOAD && TidyAfter(a.buf, TableSize(msgType, id), TableObject(added.buf))
    ensures var st := CreateTable(ArgumentState(a), RpcFields(msgType, id, a.name, a.payload));
            var loc := TableOffset(ArgumentState(a), RpcFields(msgType, id, a.name, a.payload));
            var d, t := st.buf.data, |st.buf.data| - loc;
            && loc == |a.buf.data| + TableSize(msgType, id) && t == 12
            && GetVTable(d, t) == Ok(0) && Load(d, 0, 2) == Ok(12) && Load(d, 2, 2) == Ok(TableSize(msgType, id))
            && GetOptionalFieldOffset(d, t, 4) == Ok(if msgType == 0 then 0 else 7)
            && GetOptionalFieldOffset(d, t, 6) == Ok(if id == 0 then 0 else TableSize(msgType, id) - 12)
            && GetOptionalFieldOffset(d, t, 8) == Ok(TableSize(msgType, id) - 8)
            && GetOptionalFieldOffset(d, t, 10) == Ok(TableSize(msgType, id) - 4)
  {
    hide AddFields, Stored, DistinctIds, AllWellFormed, TableObject, NewVTable, RpcFields, EndTable, UsesVTable,
         GetVTable, GetOptionalFieldOffset, Load, Tracks, Endable, CanEnd, Tidy;
    var fs, start := RpcFields(msgType, id, a.name, a.payload), |a.buf.data|;
    AddedFieldsEndable(ArgumentState(a), fs);
    var added := AddedFields(ArgumentState(a), fs);
    RecordsAre(StartTable(ArgumentState(a)), msgType, id, a.name, a.payload);
    RpcTableExact(a, msgType, id);
    EndTableUsesVTable(added, start);
    FirstVTable(added, start);
    EndTableLookup(added, start, 4);
    EndTableLookup(added, start, 6);
    EndTableLookup(added, start, 8);
    EndTableLookup(added, start, 10);
    var r := added.fields;
    assert r[0] == FieldLoc(start + 4, 10) && r[1] == FieldLoc(start + 8, 8);
    if id != 0 { assert r[2] == FieldLoc(start + 12, 6); }
    if msgType != 0 { assert r[|r| - 1].id == 4; }
  }

  /** The vtable words of the first table. */
  lemma FirstVTable(st: Builder, start: nat)
    requires Endable(st, start) && CanEnd(st, start) && st.vtables == [] && st.maxVoffset == 10
    requires var d := EndTable(st, start).buf.data;
             && TableLoc(st) + 12 == |d|
             && UsesVTable(d, TableLoc(st), UsedVTable(st, start), NewVTable(st, start))
    ensures var d := EndTable(st, start).buf.data;
            GetVTable(d, 12) == Ok(0) && Load(d, 0, 2) == Ok(12) && Load(d, 2, 2) == Ok(TableLoc(st) - start)
  {
    hide NewVTable, TableLoc, EndTable, UsesVTable, DescribesTable, GetVTable, Load, Entry;
    NewVTableDescribes(st, start);
    var d, vt := EndTable(st, start).buf.data, NewVTable(st, start);
    LeastSizes.FirstEntries(vt, st.fields, start, TableLoc(st));
    LeastSizes.VTableWords(d, TableLoc(st), UsedVTable(st, start), vt);
  }

  /** Every message has this layout, whatever its contents. */
  lemma WireLayout(order: Order, msgType: int, id: nat, name: bytes, payload: bytes)
    requires CanEncode(msgType, id, name, payload)
    ensures Wire(Encode(order, msgType, id, name, payload), order, msgType, id, name, payload)
  {
    hide WriteArguments, TableFits, AddedFields, RpcFields, IsAlign, IsType, TableObject, Rounded, Aligned,
         CreateTable, TableReads, UsesVTable, FinishBuf, TableOffset, StringReads, VectorReads, SmallVTable,
         GetOptionalFieldOffset, GetVTable, Load, TableSize, GetField, GetPointer, StringBytes, VectorBytes;
    CanBuildTable(order, msgType, id, name, payload);
    EncodableSizes(msgType, id, name, payload);
    ArgumentOffsets(order, name, payload);
    var a := WriteArguments(order, name, payload);
    var fs := RpcFields(msgType, id, a.name, a.payload);
    CreateTableReads(ArgumentState(a), fs);
    RpcTableVTable(a, fs);
    RpcTableExact(a, msgType, id);
    TablePositions(a, msgType, id);
    var st, loc := CreateTable(ArgumentState(a), fs).buf, TableOffset(ArgumentState(a), fs);
    FinishedImage(a, st, loc, fs, name, payload);
    FinishFacts(st, loc);
    var d := Encode(order, msgType, id, name, payload);
    LayoutExtends(st.data, d, msgType, id);
    ImageFields(d, loc, a, msgType, id, name, payload);
    ObjectsRead(d, a, name, payload);
  }

  lemma ObjectsRead(d: bytes, a: Arguments, name: bytes, payload: bytes)
    requires StringReads(d, a.name, name) && VectorReads(d, a.payload, |payload|, 1, payload)
    ensures StringBytes(d, |d| - a.name) == Ok((name, 0)) && VectorBytes(d, |d| - a.payload, 1) == Ok(payload)
  {
  }

  /** The root's word in front moves everything by four. */
  lemma LayoutExtends(d: bytes, e: bytes, msgType: int, id: nat)
    requires Extends(d, e) && |e| == |d| + 4
    requires GetVTable(d, 12) == Ok(0) && Load(d, 0, 2) == Ok(12) && Load(d, 2, 2).Ok?
    requires GetOptionalFieldOffset(d, 12, 4).Ok? && GetOptionalFieldOffset(d, 12, 6).Ok?
    requires GetOptionalFieldOffset(d, 12, 8).Ok? && GetOptionalFieldOffset(d, 12, 10).Ok?
    ensures GetVTable(e, 16) == Ok(4) && Load(e, 4, 2) == Ok(12) && Load(e, 6, 2) == Load(d, 2, 2)
    ensures GetOptionalFieldOffset(e, 16, 4) == GetOptionalFieldOffset(d, 12, 4)
    ensures GetOptionalFieldOffset(e, 16, 6) == GetOptionalFieldOffset(d, 12, 6)
    ensures GetOptionalFieldOffset(e, 16, 8) == GetOptionalFieldOffset(d, 12, 8)
    ensures GetOptionalFieldOffset(e, 16, 10) == GetOptionalFieldOffset(d, 12, 10)
  {
    hide GetOptionalFieldOffset;
    LoadExtends(d, e, 12, 4);
    LoadExtends(d, e, 0, 2);
    LoadExtends(d, e, 2, 2);
    FieldOffsetExtends(d, e, 12, 4);
    FieldOffsetExtends(d, e, 12, 6);
    FieldOffsetExtends(d, e, 12, 8);
    FieldOffsetExtends(d, e, 12, 10);
  }
}
