/**
 CreateRpcMessage and the calls around it, run on a FlatBufferBuilder (rpc_generated.h,
 call_remote and the reply branch of recv_cb): the bytes handed to the transport.
 */
module RpcBuilder {
  import opened Bytes
  import opened Wrappers
  import M = BuilderModel
  import opened TableLayout
  import opened TableRoundTrip
  import opened Objects
  import opened RpcMessage
  import opened RpcCodec
  import V = VectorDownward
  import F = FlatBufferBuilder

  /** add_payload, add_method, add_id and add_type, in the order of the generated code. */
  method AddRpcFields(fbb: F.FlatBufferBuilder, msgType: int, id: nat, name: nat, payload: nat)
    requires fbb.Valid() && fbb.temps == []
    requires AllWellFormed(RpcFields(msgType, id, name, payload), |fbb.Model().buf.data|)
    requires fbb.buf.size + 100 <= V.UOFFSET && fbb.buf.scratch + 36 < V.UOFFSET
    modifies fbb`minAlign, fbb`numFieldLoc, fbb`maxVoffset, fbb`fields, fbb.buf, fbb.buf.buf
    ensures fbb.Valid() && (fbb.buf.buf == old(fbb.buf.buf) || fresh(fbb.buf.buf))
    ensures fbb.Model() == AddFields(old(fbb.Model()), RpcFields(msgType, id, name, payload))
    ensures fbb.buf.scratch <= old(fbb.buf.scratch) + 32
  {
    hide F.FlatBufferBuilder.Valid, F.FlatBufferBuilder.Model, M.AddElement, M.AddOffset, AddFields, RpcFields, Pow256;
    FieldByField(fbb.Model(), msgType, id, name, payload);
    Pow256Values();
    DataIsContents(fbb);
    fbb.AddOffset(VT_PAYLOAD, payload);
    DataIsContents(fbb);
    fbb.AddOffset(VT_METHOD, name);
    fbb.AddElement(VT_ID, 4, id, 0);
    fbb.AddElement(VT_TYPE, 1, Unsigned(msgType, 1), 0);
  }

  lemma DataIsContents(fbb: F.FlatBufferBuilder)
    requires fbb.buf.Valid()
    ensures |fbb.Model().buf.data| == fbb.buf.size
  {
  }

  /** Builds the table on a builder that is not in the middle of another object. */
  method CreateRpcMessage(fbb: F.FlatBufferBuilder, msgType: int, id: nat, name: nat, payload: nat) returns (loc: nat)
    requires fbb.Valid() && fbb.temps == [] && Idle(fbb.Model())
    requires TableFits(fbb.Model(), RpcFields(msgType, id, name, payload))
    requires fbb.buf.size + 100 <= V.UOFFSET && fbb.buf.scratch + 40 < V.UOFFSET
    modifies fbb, fbb.buf, fbb.buf.buf
    ensures fbb.Valid() && (fbb.buf.buf == old(fbb.buf.buf) || fresh(fbb.buf.buf)) && fbb.temps == []
    ensures fbb.Model() == CreateTable(old(fbb.Model()), RpcFields(msgType, id, name, payload))
    ensures loc == TableOffset(old(fbb.Model()), RpcFields(msgType, id, name, payload))
  {
    hide F.FlatBufferBuilder.Valid, M.EndTable, M.CanEnd, Endable, AddFields, Stored, DistinctIds, RpcFields,
         AllWellFormed;
    ghost var fs := RpcFields(msgType, id, name, payload);
    AddedFieldsEndable(fbb.Model(), fs);
    var start := fbb.StartTable();
    AddRpcFields(fbb, msgType, id, name, payload);
    loc := fbb.EndTable(start);
  }

  /** Method and payload, in the caller's order, on a new builder. */
  method WriteArgumentsOn(fbb: F.FlatBufferBuilder, order: Order, name: bytes, payload: bytes)
    returns (nameOff: nat, payloadOff: nat)
    requires fbb.Valid() && fbb.Model() == M.EMPTY && fbb.temps == []
    requires |name| + |payload| < M.LIMIT
    modifies fbb, fbb.buf, fbb.buf.buf
    ensures fbb.Valid() && (fbb.buf.buf == old(fbb.buf.buf) || fresh(fbb.buf.buf)) && fbb.temps == []
    ensures var a := WriteArguments(order, name, payload);
            fbb.Model() == ArgumentState(a) && nameOff == a.name && payloadOff == a.payload
  {
    hide F.FlatBufferBuilder.Valid, M.CreateString, M.CreateVector;
    EmptyIsTidy();
    ArgumentSizes(order, name, payload);
    match order
    case MethodFirst =>
      nameOff := fbb.CreateString(name);
      payloadOff := fbb.CreateVector(|payload|, 1, payload);
    case PayloadFirst =>
      payloadOff := fbb.CreateVector(|payload|, 1, payload);
      nameOff := fbb.CreateString(name);
  }

  lemma ArgumentSizes(order: Order, name: bytes, payload: bytes)
    ensures |payload| * 1 == |payload|
    ensures |M.CreateString(M.EMPTY.buf, name).data| <= |name| + 12
    ensures |M.CreateVector(M.EMPTY.buf, |payload|, 1, payload).data| <= |payload| + 12
  {
    hide M.PushElement, M.PreAlign;
    F.CreateStringSize(M.EMPTY.buf, name);
    F.PreAlignSmall(M.EMPTY.buf, |payload| * 1, 4);
    F.PreAlignSmall(M.PreAlign(M.EMPTY.buf, |payload| * 1, 4), |payload| * 1, 1);
    F.PushElementSize(M.PushBytes(M.StartVector(M.EMPTY.buf, |payload|, 1), payload), 4, |payload|);
  }

  /** The finished table leaves the builder ready for Finish. */
  lemma ReadyToFinish(order: Order, msgType: int, id: nat, name: bytes, payload: bytes)
    requires CanEncode(msgType, id, name, payload)
    ensures var a := WriteArguments(order, name, payload);
            var fs := RpcFields(msgType, id, a.name, a.payload);
            && |name| + |payload| < M.LIMIT && Idle(ArgumentState(a)) && TableFits(ArgumentState(a), fs)
            && |a.buf.data| + 100 < V.UOFFSET
            && var st := CreateTable(ArgumentState(a), fs);
            && st.fields == [] && !st.nested && !st.finished
            && 0 < TableOffset(ArgumentState(a), fs) <= |st.buf.data| && |st.buf.data| + 48 < V.UOFFSET
            && IsAlign(st.buf.minAlign)
            && Encode(order, msgType, id, name, payload) == M.FinishBuf(st.buf, TableOffset(ArgumentState(a), fs)).data
  {
    hide M.CreateString, M.CreateVector, AddFields, M.NewVTable, M.TableObject, M.PushOffset, M.PreAlign, TableReads,
         StringReads,
      VectorReads, WriteArguments;
    CanBuildTable(order, msgType, id, name, payload);
    var a := WriteArguments(order, name, payload);
    var fs := RpcFields(msgType, id, a.name, a.payload);
    CreateTableReads(ArgumentState(a), fs);
    EncodableSizes(msgType, id, name, payload);
    RpcTableExact(a, msgType, id);
    AddedFieldsEndable(ArgumentState(a), fs);
  }

  /**
   The whole of building a message: whatever the call passes in, the bytes that leave are
   accepted by the other side's verifier and decode to exactly what was passed in.
   */
  method EncodeMessage(order: Order, msgType: int, id: nat, name: bytes, payload: bytes) returns (b: bytes)
    requires CanEncode(msgType, id, name, payload)
    ensures b == Encode(order, msgType, id, name, payload)
    ensures Receive(b) == Accepted(Message(msgType, id, Some(name), Some(payload)))
  {
    hide F.FlatBufferBuilder.Valid, WriteArguments, TableFits, TableOffset, RpcFields, CreateTable, Receive,
         M.PushOffset,
      M.PreAlign, M.FinishBuf, Encode, CanEncode, V.VectorDownward.Contents;
    ReadyToFinish(order, msgType, id, name, payload);
    EncodeReceived(order, msgType, id, name, payload);
    var fbb := new F.FlatBufferBuilder(1024);
    var nameOff, payloadOff := WriteArgumentsOn(fbb, order, name, payload);
    var loc := CreateRpcMessage(fbb, msgType, id, nameOff, payloadOff);
    fbb.Finish(loc);
    b := fbb.Bytes();
  }
}
