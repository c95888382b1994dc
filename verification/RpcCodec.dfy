/**
 Building the RPC envelope (CreateRpcMessage, call_remote, the response branch of recv_cb):
 what a peer builds, every peer accepts and reads back, byte for byte.
 */
module RpcCodec {
  import opened Bytes
  import opened Wrappers
  import opened Table
  import V = Verifier
  import opened BuilderModel
  import opened TableLayout
  import opened TableRoundTrip
  import opened Objects
  import opened ExactSizes
  import opened RpcMessage

  /** The fields in the order CreateRpcMessage adds them. */
  function RpcFields(msgType: int, id: nat, name: nat, payload: nat): seq<Field> {
    [ Ref(VT_PAYLOAD, payload),
      Ref(VT_METHOD, name),
      Scalar(VT_ID, 4, id, 0),
      Scalar(VT_TYPE, 1, Unsigned(msgType, 1), 0) ]
  }

  /** call_remote writes the method first, the reply of recv_cb its payload first. */
  datatype Order = MethodFirst | PayloadFirst

  datatype Arguments = Arguments(buf: Buf, name: nat, payload: nat)

  function WriteArguments(order: Order, name: bytes, payload: bytes): Arguments {
    match order
    case MethodFirst =>
      var b1 := CreateString(EMPTY.buf, name);
      var b2 := CreateVector(b1, |payload|, 1, payload);
      Arguments(b2, |b1.data|, |b2.data|)
    case PayloadFirst =>
      var b1 := CreateVector(EMPTY.buf, |payload|, 1, payload);
      var b2 := CreateString(b1, name);
      Arguments(b2, |b2.data|, |b1.data|)
  }

  /** The size of the finished message: two objects, the table, its vtable of twelve bytes and the root's offset. */
  function EncodedSize(msgType: int, id: nat, name: bytes, payload: bytes): nat {
    (Rounded(|name| + 1) + 4) + (Rounded(|payload|) + 4) + TableSize(msgType, id) + 12 + 4
  }

  /** Method and payload leave the buffer below its size limit, as a request or a reply with any id. */
  predicate Sendable(name: bytes, payload: bytes) {
    EncodedSize(RESPONSE, 1, name, payload) < LIMIT
  }

  /** The enumeration is stored as an int8_t; the builder takes any of its values. */
  predicate IsType(msgType: int) {
    -0x80 <= msgType < 0x80
  }

  // ---------- The arguments ----------

  predicate ArgumentsOk(a: Arguments, name: bytes, payload: bytes) {
    && StringReads(a.buf.data, a.name, name)
    && VectorReads(a.buf.data, a.payload, |payload|, 1, payload)
    && 0 < a.name <= |a.buf.data| && 0 < a.payload <= |a.buf.data|
    && TidyAfter(EMPTY.buf, (Rounded(|name| + 1) + 4) + (Rounded(|payload|) + 4), a.buf)
  }

  lemma ArgumentsWritten(order: Order, name: bytes, payload: bytes)
    requires |name| < LIMIT && |payload| < LIMIT
    ensures ArgumentsOk(WriteArguments(order, name, payload), name, payload)
  {
    hide CreateString, CreateVector, StringReads, VectorReads, IsAlign, Rounded, Aligned;
    EmptyIsTidy();
    var b0 := EMPTY.buf;
    match order
    case MethodFirst =>
      StringWritten(b0, name);
      var b1 := CreateString(b0, name);
      PayloadWritten(b1, payload);
      var b2 := CreateVector(b1, |payload|, 1, payload);
      StringReadsExtends(b1.data, b2.data, |b1.data|, name);
    case PayloadFirst =>
      PayloadWritten(b0, payload);
      var b1 := CreateVector(b0, |payload|, 1, payload);
      StringWritten(b1, name);
      var b2 := CreateString(b1, name);
      VectorReadsExtends(b1.data, b2.data, |b1.data|, |payload|, 1, payload);
  }

  lemma EmptyIsTidy()
    ensures Tidy(EMPTY.buf) && IsAlign(1) && IsAlign(4)
  {
  }

  lemma StringWritten(b: Buf, name: bytes)
    requires Tidy(b) && |name| < LIMIT
    ensures var r := CreateString(b, name);
            && Grew(b, r) && StringReads(r.data, |r.data|, name) && 0 < |r.data|
            && TidyAfter(b, Rounded(|name| + 1) + 4, r)
  {
    hide CreateString, StringReads;
    CreateStringReads(b, name);
    StringExact(b, name);
  }

  lemma PayloadWritten(b: Buf, payload: bytes)
    requires Tidy(b) && |payload| < LIMIT
    ensures |payload| * 1 == |payload| && IsAlign(1)
    ensures var r := CreateVector(b, |payload|, 1, payload);
            && Grew(b, r) && VectorReads(r.data, |r.data|, |payload|, 1, payload) && 0 < |r.data|
            && TidyAfter(b, Rounded(|payload|) + 4, r)
  {
    hide CreateVector, VectorReads;
    BytesExact(b, payload);
    CreateVectorReads(b, |payload|, 1, payload);
  }

  // ---------- The table ----------

  function ArgumentState(a: Arguments): Builder {
    EMPTY.(buf := a.buf)
  }

  lemma RpcFieldsOk(msgType: int, id: nat, nameOff: nat, payloadOff: nat, size: nat)
    requires IsType(msgType) && id < 0x1_0000_0000 && nameOff <= size && payloadOff <= size
    ensures var fs := RpcFields(msgType, id, nameOff, payloadOff);
            AllWellFormed(fs, size) && DistinctIds(fs)
  {
    Pow256Values();
  }

  /** Adding the four fields one after the other is adding the list of them. */
  lemma FieldByField(st: Builder, msgType: int, id: nat, name: nat, payload: nat)
    requires AllWellFormed(RpcFields(msgType, id, name, payload), |st.buf.data|)
    ensures payload <= |st.buf.data| && name <= |st.buf.data|
    ensures var s1 := AddOffset(st, VT_PAYLOAD, payload);
            |s1.buf.data| >= |st.buf.data|
            && var s2 := AddOffset(s1, VT_METHOD, name);
            var s3 := AddElement(s2, VT_ID, 4, id, 0);
            var s4 := AddElement(s3, VT_TYPE, 1, Unsigned(msgType, 1), 0);
            s4 == AddFields(st, RpcFields(msgType, id, name, payload))
  {
    hide AddElement, AddOffset;
    var fs := RpcFields(msgType, id, name, payload);
    var f1, f2, f3, f4 := fs[0], fs[1], fs[2], fs[3];
    PrefixesWellFormed(fs, |st.buf.data|);
    assert fs[..4] == fs && fs[..4][..3] == fs[..3] && fs[..3][..2] == fs[..2] && fs[..2][..1] == fs[..1]
        && fs[..1][..0] == [];
    assert AddFields(st, fs[..1]) == AddField(AddFields(st, []), f1);
    assert AddFields(st, fs[..2]) == AddField(AddFields(st, fs[..1]), f2);
    assert AddFields(st, fs[..3]) == AddField(AddFields(st, fs[..2]), f3);
    assert AddFields(st, fs[..4]) == AddField(AddFields(st, fs[..3]), f4);
  }

  lemma PrefixesWellFormed(fs: seq<Field>, size: nat)
    requires AllWellFormed(fs, size)
    ensures forall k :: 0 <= k <= |fs| ==> AllWellFormed(fs[..k], size)
  {
  }

  /** The bytes of the table itself: two offsets, the scalars that are not defaults, the vtable offset. */
  function TableSize(msgType: int, id: nat): nat {
    4 + 4 + (if id == 0 then 0 else 4) + (if msgType == REQUEST then 0 else 4) + 4
  }

  lemma FieldsExact(st: Builder, msgType: int, id: nat, name: nat, payload: nat)
    requires IsType(msgType) && AllWellFormed(RpcFields(msgType, id, name, payload), |st.buf.data|)
    requires Tidy(st.buf) && !st.forceDefaults && st.maxVoffset == 0 && name > 0 && payload > 0
    ensures var r := AddFields(st, RpcFields(msgType, id, name, payload));
            r.maxVoffset == VT_PAYLOAD && TidyAfter(st.buf, TableSize(msgType, id), TableObject(r.buf))
  {
    hide AddElement, AddOffset, AddFields, RpcFields, TableObject, Aligned;
    FieldByField(st, msgType, id, name, payload);
    OffsetExact(st, VT_PAYLOAD, payload);
    var s1 := AddOffset(st, VT_PAYLOAD, payload);
    OffsetExact(s1, VT_METHOD, name);
    var s2 := AddOffset(s1, VT_METHOD, name);
    ElementExact(s2, VT_ID, 4, id);
    var s3 := AddElement(s2, VT_ID, 4, id, 0);
    ElementExact(s3, VT_TYPE, 1, Unsigned(msgType, 1));
  }

  // ---------- The whole message ----------

  /** The message stays below the buffer's size limit. */
  predicate CanEncode(msgType: int, id: nat, name: bytes, payload: bytes) {
    IsType(msgType) && id < 0x1_0000_0000 && EncodedSize(msgType, id, name, payload) < LIMIT
  }

  lemma SendableEncodes(msgType: int, id: nat, name: bytes, payload: bytes)
    requires IsType(msgType) && id < 0x1_0000_0000 && Sendable(name, payload)
    ensures CanEncode(msgType, id, name, payload)
  {
  }

  /** Whoever can be asked with a payload can be answered with none. */
  lemma EmptyReplySendable(name: bytes, payload: bytes)
    requires Sendable(name, payload)
    ensures Sendable(name, [])
  {
    hide Padding;
    NothingToRound();
  }

  lemma EncodableSizes(msgType: int, id: nat, name: bytes, payload: bytes)
    requires CanEncode(msgType, id, name, payload)
    ensures |name| + |payload| + 20 < LIMIT
  {
    hide Padding;
  }

  lemma CanBuildTable(order: Order, msgType: int, id: nat, name: bytes, payload: bytes)
    requires CanEncode(msgType, id, name, payload)
    ensures var a := WriteArguments(order, name, payload);
            var fs := RpcFields(msgType, id, a.name, a.payload);
            && ArgumentsOk(a, name, payload)
            && Idle(ArgumentState(a)) && AllWellFormed(fs, |a.buf.data|)
            && TableFits(ArgumentState(a), fs)
            && var added := AddedFields(ArgumentState(a), fs);
            && added.maxVoffset == VT_PAYLOAD
            && TidyAfter(a.buf, TableSize(msgType, id), TableObject(added.buf))
  {
    hide WriteArguments, StringReads, VectorReads, AddFields, RpcFields, IsAlign, Rounded, AllWellFormed,
         DistinctIds, TableObject;
    EncodableSizes(msgType, id, name, payload);
    ArgumentsWritten(order, name, payload);
    var a := WriteArguments(order, name, payload);
    RpcFieldsOk(msgType, id, a.name, a.payload, |a.buf.data|);
    ArgumentStateIdle(a);
    FieldsExact(StartTable(ArgumentState(a)), msgType, id, a.name, a.payload);
  }

  lemma ArgumentStateIdle(a: Arguments)
    ensures Idle(ArgumentState(a))
  {
  }

  function CreateRpcMessage(a: Arguments, msgType: int, id: nat): Builder
    requires a.name <= |a.buf.data| && a.payload <= |a.buf.data|
    requires Idle(ArgumentState(a)) && AllWellFormed(RpcFields(msgType, id, a.name, a.payload), |a.buf.data|)
    requires TableFits(ArgumentState(a), RpcFields(msgType, id, a.name, a.payload))
  {
    CreateTable(ArgumentState(a), RpcFields(msgType, id, a.name, a.payload))
  }

  /** The bytes handed to the transport. */
  function Encode(order: Order, msgType: int, id: nat, name: bytes, payload: bytes): bytes
    requires CanEncode(msgType, id, name, payload)
  {
    CanBuildTable(order, msgType, id, name, payload);
    var a := WriteArguments(order, name, payload);
    var fs := RpcFields(msgType, id, a.name, a.payload);
    CreateTableReads(ArgumentState(a), fs);
    FinishBuf(CreateRpcMessage(a, msgType, id).buf, TableOffset(ArgumentState(a), fs)).data
  }

  predicate SmallVTable(vt: bytes) {
    4 <= |vt| <= 12 && |vt| % 2 == 0 && Entry(vt, 0) == |vt|
  }

  /** The table's own small vtable lies just in front of it. */
  ghost predicate OwnVTable(d: bytes, loc: nat) {
    exists vt :: UsesVTable(d, loc, loc + |vt|, vt) && SmallVTable(vt)
  }

  lemma OwnVTableExtends(d: bytes, e: bytes, loc: nat)
    requires Extends(d, e) && OwnVTable(d, loc)
    ensures OwnVTable(e, loc)
  {
    hide UsesVTable, SmallVTable, Extends;
    var vt :| UsesVTable(d, loc, loc + |vt|, vt) && SmallVTable(vt);
    UsesVTableExtends(d, e, loc, loc + |vt|, vt);
  }

  /** What an encoded message looks like: its root table, that table's vtable, and the two objects it refers to. */
  ghost predicate Image(d: bytes, loc: nat, a: Arguments, fs: seq<Field>, name: bytes, payload: bytes) {
    && GetRoot(d) == Ok(|d| - loc) && 0 < loc < |d|
    && Aligned(|d|, 4) && |d| < LIMIT
    && TableReads(d, loc, fs, false)
    && OwnVTable(d, loc)
    && 0 < a.name < loc && 0 < a.payload < loc
    && StringReads(d, a.name, name)
    && VectorReads(d, a.payload, |payload|, 1, payload)
  }

  lemma FirstTableVTable(st: Builder, start: nat)
    requires Endable(st, start) && CanEnd(st, start) && st.vtables == [] && st.maxVoffset <= 10
    ensures OwnVTable(EndTable(st, start).buf.data, TableLoc(st))
  {
    hide NewVTable, TableLoc, EndTable, UsesVTable;
    EndTableUsesVTable(st, start);
    NewVTableDescribes(st, start);
    assert UsedVTable(st, start) == |NewVTable(st, start)| + TableLoc(st);
    assert SmallVTable(NewVTable(st, start));
  }

  lemma RpcTableVTable(a: Arguments, fs: seq<Field>)
    requires Idle(ArgumentState(a)) && TableFits(ArgumentState(a), fs)
             && AddedFields(ArgumentState(a), fs).maxVoffset <= 10
    ensures var st := CreateTable(ArgumentState(a), fs);
            OwnVTable(st.buf.data, TableOffset(ArgumentState(a), fs))
  {
    hide AddFields, Stored, DistinctIds, AllWellFormed, EndTable, TableObject, OwnVTable, Endable, CanEnd, TableLoc;
    AddedFieldsEndable(ArgumentState(a), fs);
    FirstTableVTable(AddedFields(ArgumentState(a), fs), |a.buf.data|);
  }

  /** The first table of a builder has a vtable of its own, so its size is known. */
  lemma RpcTableExact(a: Arguments, msgType: int, id: nat)
    requires Idle(ArgumentState(a))
    requires TableFits(ArgumentState(a), RpcFields(msgType, id, a.name, a.payload))
    requires var added := AddedFields(ArgumentState(a), RpcFields(msgType, id, a.name, a.payload));
             added.maxVoffset == VT_PAYLOAD && TidyAfter(a.buf, TableSize(msgType, id), TableObject(added.buf))
    ensures var st := CreateTable(ArgumentState(a), RpcFields(msgType, id, a.name, a.payload));
            TidyAfter(a.buf, TableSize(msgType, id) + 12, st.buf)
  {
    hide AddFields, Stored, DistinctIds, AllWellFormed, TableObject, NewVTable, RpcFields;
    var fs := RpcFields(msgType, id, a.name, a.payload);
    AddedFieldsEndable(ArgumentState(a), fs);
    var obj := TableObject(AddedFields(ArgumentState(a), fs).buf);
    AlignedShift4(|obj.data|);
    AlignedShift4(|obj.data| + 4);
    AlignedShift4(|obj.data| + 8);
  }

  lemma UsesVTableExtends(d: bytes, e: bytes, loc: nat, u: nat, vt: bytes)
    requires Extends(d, e) && UsesVTable(d, loc, u, vt)
    ensures UsesVTable(e, loc, u, vt)
  {
    LoadExtends(d, e, |d| - loc, 4);
    LoadExtends(d, e, |d| - u, |vt|);
  }

  /** The finished buffer of table `loc`, built on the arguments `a`. */
  lemma FinishedImage(a: Arguments, st: Buf, loc: nat, fs: seq<Field>, name: bytes, payload: bytes)
    requires ArgumentsOk(a, name, payload)
    requires Grew(a.buf, st) && Tidy(st) && st.minAlign == 4 && |a.buf.data| < loc <= |st.data|
    requires |st.data| + 4 < LIMIT
    requires TableReads(st.data, loc, fs, false)
    requires OwnVTable(st.data, loc)
    ensures IsAlign(st.minAlign) && |FinishBuf(st, loc).data| == |st.data| + 4
    ensures Image(FinishBuf(st, loc).data, loc, a, fs, name, payload)
  {
    hide StringReads, VectorReads, TableReads, OwnVTable, FinishBuf, GetRoot, Extends, Aligned, Image;
    FinishExact(st, loc);
    FinishFacts(st, loc);
    var r := FinishBuf(st, loc);
    GrewTransitive(a.buf, st, r);
    GrewLonger(st, r);
    OwnVTableRoom(st.data, loc);
    ImageExtends(a, st, r.data, loc, fs, name, payload);
  }

  lemma OwnVTableRoom(d: bytes, loc: nat)
    requires OwnVTable(d, loc)
    ensures loc + 4 <= |d|
  {
  }

  lemma ImageExtends(a: Arguments, st: Buf, d: bytes, loc: nat, fs: seq<Field>, name: bytes, payload: bytes)
    requires StringReads(a.buf.data, a.name, name) && VectorReads(a.buf.data, a.payload, |payload|, 1, payload)
    requires Extends(a.buf.data, d) && Extends(st.data, d)
    requires TableReads(st.data, loc, fs, false) && OwnVTable(st.data, loc)
    requires GetRoot(d) == Ok(|d| - loc) && 0 < loc < |d| && Aligned(|d|, 4) && |d| < LIMIT
    requires 0 < a.name < loc && 0 < a.payload < loc
    ensures Image(d, loc, a, fs, name, payload)
  {
    hide StringReads, VectorReads, TableReads, OwnVTable, GetRoot, Extends, Aligned;
    StringReadsExtends(a.buf.data, d, a.name, name);
    VectorReadsExtends(a.buf.data, d, a.payload, |payload|, 1, payload);
    TableReadsExtends(st.data, d, loc, fs, false);
    OwnVTableExtends(st.data, d, loc);
  }

  lemma EncodeImage(order: Order, msgType: int, id: nat, name: bytes, payload: bytes)
    requires CanEncode(msgType, id, name, payload)
    ensures |Encode(order, msgType, id, name, payload)| == EncodedSize(msgType, id, name, payload)
    ensures exists loc: nat, a: Arguments ::
              Image(Encode(order, msgType, id, name, payload), loc, a, RpcFields(msgType, id, a.name, a.payload),
                  name, payload)
  {
    hide WriteArguments, TableFits, AddedFields, RpcFields, IsAlign, IsType, TableObject, Rounded, Aligned,
         CreateTable, TableReads, UsesVTable, FinishBuf, TableOffset, Image, StringReads, VectorReads, SmallVTable;
    CanBuildTable(order, msgType, id, name, payload);
    var a := WriteArguments(order, name, payload);
    var fs := RpcFields(msgType, id, a.name, a.payload);
    CreateTableReads(ArgumentState(a), fs);
    RpcTableVTable(a, fs);
    RpcTableExact(a, msgType, id);
    FinishedImage(a, CreateTable(ArgumentState(a), fs).buf, TableOffset(ArgumentState(a), fs), fs, name, payload);
    assert Image(Encode(order, msgType, id, name, payload), TableOffset(ArgumentState(a), fs), a, fs, name, payload);
  }

  /** The size of a message is known before it is built, and does not depend on the order of its arguments. */
  lemma EncodedSizeExact(order: Order, msgType: int, id: nat, name: bytes, payload: bytes)
    requires CanEncode(msgType, id, name, payload)
    ensures |Encode(order, msgType, id, name, payload)| == EncodedSize(msgType, id, name, payload)
  {
    hide Encode, Image;
    EncodeImage(order, msgType, id, name, payload);
  }

  // ---------- Reading it back ----------

  datatype Message = Message(msgType: int, id: nat, name: Option<bytes>, payload: Option<bytes>)

  /** The contents recv_cb takes out of a verified message, null pointers as None. */
  function Decode(b: bytes): Checked<Message> {
    var t :- GetRoot(b);
    var msgType :- Type(b, t);
    var id :- Id(b, t);
    var name :- DecodeName(b, t);
    var payload :- DecodePayload(b, t);
    Ok(Message(msgType, id, name, payload))
  }

  function DecodeName(b: bytes, t: int): Checked<Option<bytes>> {
    var p :- Method(b, t);
    if p.None? then Ok(None)
    else
      var s :- StringBytes(b, p.value);
      Ok(Some(s.0))
  }

  function DecodePayload(b: bytes, t: int): Checked<Option<bytes>> {
    var p :- Payload(b, t);
    if p.None? then Ok(None)
    else
      var v :- VectorBytes(b, p.value, 1);
      Ok(Some(v))
  }

  /** Accepted buffers can always be decoded. */
  lemma AcceptedDecodes(b: bytes, opts: V.Options)
    requires |b| <= V.PTRDIFF_MAX && VerifyBuffer(b, opts) == Ok(true)
    ensures Decode(b).Ok?
  {
    hide VerifyBuffer, Type, Id, GetPointer, StringBytes, VectorBytes, GetRoot;
    VerifierSound(b, opts);
  }

  lemma ImageFields(d: bytes, loc: nat, a: Arguments, msgType: int, id: nat, name: bytes, payload: bytes)
    requires CanEncode(msgType, id, name, payload)
    requires Image(d, loc, a, RpcFields(msgType, id, a.name, a.payload), name, payload)
    ensures loc < |d|
    ensures var t := |d| - loc;
            && GetField(d, t, VT_ID, 4, 0) == Ok(id)
            && GetField(d, t, VT_TYPE, 1, 0) == Ok(Unsigned(msgType, 1))
            && GetPointer(d, t, VT_METHOD) == Ok(Some(|d| - a.name))
            && GetPointer(d, t, VT_PAYLOAD) == Ok(Some(|d| - a.payload))
            && FieldAligned(d, t, Scalar(VT_ID, 4, id, 0))
            && FieldAligned(d, t, Ref(VT_METHOD, a.name))
            && FieldAligned(d, t, Ref(VT_PAYLOAD, a.payload))
  {
    hide GetField, GetPointer, StringReads, VectorReads, UsesVTable, GetRoot, FieldAligned, GetOptionalFieldOffset,
         SmallVTable;
    var fs, t := RpcFields(msgType, id, a.name, a.payload), |d| - loc;
    assert FieldReads(d, t, fs[0], false) && FieldAligned(d, t, fs[0]);
    assert FieldReads(d, t, fs[1], false) && FieldAligned(d, t, fs[1]);
    assert FieldReads(d, t, fs[2], false) && FieldAligned(d, t, fs[2]);
    assert FieldReads(d, t, fs[3], false);
  }

  /**
   RPC round trip: whichever way round the arguments are written, the accessors give back the
   type, the id, the method name and the payload, byte for byte.
   */
  lemma EncodeDecodes(order: Order, msgType: int, id: nat, name: bytes, payload: bytes)
    requires CanEncode(msgType, id, name, payload)
    ensures Decode(Encode(order, msgType, id, name, payload)) == Ok(Message(msgType, id, Some(name), Some(payload)))
  {
    hide Encode, GetField, GetPointer, FieldAligned, UsesVTable, TableReads, StringBytes, VectorBytes, Padding, Rem;
    EncodeImage(order, msgType, id, name, payload);
    var d := Encode(order, msgType, id, name, payload);
    var loc: nat, a: Arguments :| Image(d, loc, a, RpcFields(msgType, id, a.name, a.payload), name, payload);
    ImageFields(d, loc, a, msgType, id, name, payload);
    Pow256Values();
    SignedUnsigned(msgType, 1);
  }

  // ---------- Verifier completeness ----------

  lemma ImageSize(d: bytes, loc: nat, vt: bytes)
    requires UsesVTable(d, loc, loc + |vt|, vt) && SmallVTable(vt) && Aligned(|d|, 4) && 4 < loc
    ensures |d| >= 12
  {
    RemIsMod(|d|, 4);
  }

  lemma RootAccepted(d: bytes, loc: nat)
    requires 12 <= |d| < V.MAX_BUFFER_SIZE && 0 < loc < |d| && GetRoot(d) == Ok(|d| - loc)
    ensures V.VerifyOffset(d, V.DEFAULT_OPTIONS, 0) == Ok(|d| - loc)
  {
    Pow256Values();
    V.ScalarComplete(d, V.DEFAULT_OPTIONS, 0, 4);
  }

  lemma TableStartAccepted(d: bytes, loc: nat, vt: bytes)
    requires 12 <= |d| < V.MAX_BUFFER_SIZE && UsesVTable(d, loc, loc + |vt|, vt) && SmallVTable(vt)
    requires Aligned(|d|, 4) && Aligned(loc, 4) && 4 < loc
    ensures V.VerifyTableStart(d, V.DEFAULT_OPTIONS, V.START, |d| - loc) == Ok(true)
  {
    var t, v := |d| - loc, |d| - loc - |vt|;
    assert d[v..v + |vt|] == vt;
    assert d[v..v + 2] == vt[0..2];
    AlignedDifference(|d|, loc, 4);
    AlignedWeaker(t, 4, 2);
    RemIsMod(|vt|, 2);
    AlignedDifference(t, |vt|, 2);
    V.TableStartComplete(d, V.DEFAULT_OPTIONS, V.START, t);
  }

  lemma IdAccepted(d: bytes, t: nat, id: nat)
    requires 12 <= |d| < V.MAX_BUFFER_SIZE && t < |d| && Aligned(|d|, 4)
    requires GetField(d, t, VT_ID, 4, 0) == Ok(id) && FieldAligned(d, t, Scalar(VT_ID, 4, id, 0))
    ensures V.VerifyField(d, V.DEFAULT_OPTIONS, t, VT_ID, 4, 4) == Ok(true)
  {
    var fo := GetOptionalFieldOffset(d, t, VT_ID).value;
    if fo != 0 { AlignedDifference(|d|, |d| - (t + fo), 4); }
    V.FieldComplete(d, V.DEFAULT_OPTIONS, t, VT_ID, 4, 4);
  }

  lemma TypeAccepted(d: bytes, t: nat)
    requires 12 <= |d| < V.MAX_BUFFER_SIZE && t < |d|
    requires GetField(d, t, VT_TYPE, 1, 0).Ok?
    ensures V.VerifyField(d, V.DEFAULT_OPTIONS, t, VT_TYPE, 1, 1) == Ok(true)
  {
    var fo := GetOptionalFieldOffset(d, t, VT_TYPE).value;
    RemIsMod(t + fo, 1);
    V.FieldComplete(d, V.DEFAULT_OPTIONS, t, VT_TYPE, 1, 1);
  }

  lemma OffsetAccepted(d: bytes, loc: nat, field: nat, target: nat)
    requires 12 <= |d| < V.MAX_BUFFER_SIZE && loc < |d| && Aligned(|d|, 4) && 0 < target < loc
    requires GetPointer(d, |d| - loc, field) == Ok(Some(|d| - target)) && FieldAligned(d, |d| - loc, Ref(field, target))
    ensures V.VerifyFieldOffset(d, V.DEFAULT_OPTIONS, |d| - loc, field) == Ok(true)
  {
    var t := |d| - loc;
    var fo := GetOptionalFieldOffset(d, t, field).value;
    AlignedDifference(|d|, |d| - (t + fo), 4);
    V.PointerComplete(d, V.DEFAULT_OPTIONS, t, field);
  }

  lemma NameAccepted(d: bytes, off: nat, name: bytes)
    requires 12 <= |d| < V.MAX_BUFFER_SIZE && Aligned(|d|, 4) && off < |d| && StringReads(d, off, name)
    ensures V.VerifyString(d, V.DEFAULT_OPTIONS, Some(|d| - off)) == Ok(true)
  {
    AlignedDifference(|d|, off, 4);
    V.StringComplete(d, V.DEFAULT_OPTIONS, |d| - off);
  }

  lemma PayloadAccepted(d: bytes, off: nat, payload: bytes)
    requires 12 <= |d| < V.MAX_BUFFER_SIZE && Aligned(|d|, 4) && off < |d|
    requires VectorReads(d, off, |payload|, 1, payload)
    ensures V.VerifyVector(d, V.DEFAULT_OPTIONS, Some(|d| - off), 1) == Ok(true)
  {
    AlignedDifference(|d|, off, 4);
    V.VectorComplete(d, V.DEFAULT_OPTIONS, |d| - off);
  }

  lemma ImageAccepted(d: bytes, loc: nat, a: Arguments, msgType: int, id: nat, name: bytes, payload: bytes)
    requires CanEncode(msgType, id, name, payload)
    requires Image(d, loc, a, RpcFields(msgType, id, a.name, a.payload), name, payload)
    ensures VerifyBuffer(d, V.DEFAULT_OPTIONS) == Ok(true)
  {
    hide UsesVTable, SmallVTable, TableReads, FieldAligned, GetField, GetPointer, GetRoot, Aligned, StringBytes,
         VectorBytes, VectorSize,
         V.VerifyTableStart, V.VerifyField, V.VerifyFieldOffset, V.VerifyOffset, V.VerifyString, V.VerifyVector;
    ImageFields(d, loc, a, msgType, id, name, payload);
    var vt :| UsesVTable(d, loc, loc + |vt|, vt) && SmallVTable(vt);
    ImageTable(d, loc, a, RpcFields(msgType, id, a.name, a.payload), name, payload);
    ImageSize(d, loc, vt);
    RootAccepted(d, loc);
    TableStartAccepted(d, loc, vt);
    TypeAccepted(d, |d| - loc);
    IdAccepted(d, |d| - loc, id);
    OffsetAccepted(d, loc, VT_METHOD, a.name);
    NameAccepted(d, a.name, name);
    OffsetAccepted(d, loc, VT_PAYLOAD, a.payload);
    PayloadAccepted(d, a.payload, payload);
  }

  lemma ImageTable(d: bytes, loc: nat, a: Arguments, fs: seq<Field>, name: bytes, payload: bytes)
    requires Image(d, loc, a, fs, name, payload)
    ensures Aligned(loc, 4) && 4 < loc
  {
  }

  /** Verifier completeness: every message a peer builds passes the other peer's verification, alignment included. */
  lemma EncodeAccepted(order: Order, msgType: int, id: nat, name: bytes, payload: bytes)
    requires CanEncode(msgType, id, name, payload)
    ensures VerifyBuffer(Encode(order, msgType, id, name, payload), V.DEFAULT_OPTIONS) == Ok(true)
    ensures |Encode(order, msgType, id, name, payload)| < V.MAX_BUFFER_SIZE
  {
    hide Encode, RpcFields, VerifyBuffer, UsesVTable, TableReads, StringReads, VectorReads;
    EncodeImage(order, msgType, id, name, payload);
    var d := Encode(order, msgType, id, name, payload);
    var loc: nat, a: Arguments :| Image(d, loc, a, RpcFields(msgType, id, a.name, a.payload), name, payload);
    ImageAccepted(d, loc, a, msgType, id, name, payload);
  }

  /** What recv_cb makes of a delivered buffer. */
  datatype Received = Rejected | Accepted(msg: Message)

  function Receive(b: bytes): Received {
    var ok := VerifyBuffer(b, V.DEFAULT_OPTIONS);
    var m := Decode(b);
    if ok == Ok(true) && m.Ok? then Accepted(m.value) else Rejected
  }

  /** Transport of one message: what was encoded is accepted and is what arrives. */
  lemma EncodeReceived(order: Order, msgType: int, id: nat, name: bytes, payload: bytes)
    requires CanEncode(msgType, id, name, payload)
    ensures Receive(Encode(order, msgType, id, name, payload))
            == Accepted(Message(msgType, id, Some(name), Some(payload)))
  {
    hide Encode, VerifyBuffer, Decode;
    EncodeAccepted(order, msgType, id, name, payload);
    EncodeDecodes(order, msgType, id, name, payload);
  }
}
