/**
 The RPC envelope (rpc_generated.h): its accessors, its verification, and the two ways the
 peers build it.
 */
module RpcMessage {
  import opened Bytes
  import opened Wrappers
  import opened Table
  import opened Verifier

  const VT_TYPE: nat := 4
  const VT_ID: nat := 6
  const VT_METHOD: nat := 8
  const VT_PAYLOAD: nat := 10

  const REQUEST: int := 0
  const RESPONSE: int := 1

  // ---------- Accessors ----------

  function Type(b: bytes, t: int): Checked<int> {
    var u :- GetField(b, t, VT_TYPE, 1, 0);
    Ok(Signed(u, 1))
  }

  function Id(b: bytes, t: int): Checked<nat> {
    GetField(b, t, VT_ID, 4, 0)
  }

  function Method(b: bytes, t: int): Checked<Option<int>> {
    GetPointer(b, t, VT_METHOD)
  }

  function Payload(b: bytes, t: int): Checked<Option<int>> {
    GetPointer(b, t, VT_PAYLOAD)
  }

  // ---------- Verification ----------

  function VerifyTable(b: bytes, opts: Options, c: Counters, t: int): Checked<bool> {
    var start :- VerifyTableStart(b, opts, c, t);
    if !start then Ok(false)
    else
      var typeOk :- VerifyField(b, opts, t, VT_TYPE, 1, 1);
      if !typeOk then Ok(false)
      else
        var idOk :- VerifyField(b, opts, t, VT_ID, 4, 4);
        if !idOk then Ok(false)
        else
          var methodOk :- VerifyMethod(b, opts, t);
          if !methodOk then Ok(false) else VerifyPayload(b, opts, t)
  }

  function VerifyMethod(b: bytes, opts: Options, t: int): Checked<bool> {
    var ok :- VerifyFieldOffset(b, opts, t, VT_METHOD);
    if !ok then Ok(false)
    else
      var p :- Method(b, t);
      VerifyString(b, opts, p)
  }

  function VerifyPayload(b: bytes, opts: Options, t: int): Checked<bool> {
    var ok :- VerifyFieldOffset(b, opts, t, VT_PAYLOAD);
    if !ok then Ok(false)
    else
      var p :- Payload(b, t);
      VerifyVector(b, opts, p, 1)
  }

  /** `VerifyBuffer<RpcMessage>` without a file identifier. */
  function VerifyBuffer(b: bytes, opts: Options): Checked<bool> {
    if |b| < MIN_BUFFER_SIZE then Ok(false)
    else
      var o :- VerifyOffset(b, opts, 0);
      if o == 0 then Ok(false) else VerifyTable(b, opts, START, o)
  }

  // ---------- Soundness ----------

  /** Every byte that the accessors, and the copies made of method and payload, touch is inside the buffer. */
  predicate SafeToRead(b: bytes, t: int) {
    && Type(b, t).Ok? && Id(b, t).Ok? && Method(b, t).Ok? && Payload(b, t).Ok?
    && (Method(b, t).value.Some? ==>
          var s := StringBytes(b, Method(b, t).value.value);
          s.Ok? && s.value.1 == 0)
    && (Payload(b, t).value.Some? ==> VectorBytes(b, Payload(b, t).value.value, 1).Ok?)
  }

  /**
   Verifier soundness, for arbitrary bytes: verification itself never reads outside the
   buffer, and a buffer it accepts can be read without leaving it.
   */
  lemma VerifierSound(b: bytes, opts: Options)
    requires |b| <= PTRDIFF_MAX
    ensures VerifyBuffer(b, opts).Ok?
    ensures VerifyBuffer(b, opts) == Ok(true) ==> GetRoot(b).Ok? && SafeToRead(b, GetRoot(b).value)
  {
    hide VerifyTable, VerifyOffset, SafeToRead;
    if |b| >= MIN_BUFFER_SIZE {
      OffsetSound(b, opts, 0);
      var o := VerifyOffset(b, opts, 0).value;
      if o != 0 { TableSound(b, opts, START, o); }
    }
  }

  lemma TableSound(b: bytes, opts: Options, c: Counters, t: int)
    requires |b| <= PTRDIFF_MAX && 0 <= t < |b|
    ensures VerifyTable(b, opts, c, t).Ok?
    ensures VerifyTable(b, opts, c, t) == Ok(true) ==> SafeToRead(b, t)
  {
    hide VerifyTableStart, VerifyField, VerifyMethod, VerifyPayload, GetField, GetPointer, ReadableVTable,
         StringBytes, VectorBytes;
    TableStartSound(b, opts, c, t);
    if VerifyTableStart(b, opts, c, t) == Ok(true) {
      FieldSound(b, opts, t, VT_TYPE, 1, 1, 0);
      FieldSound(b, opts, t, VT_ID, 4, 4, 0);
      MethodSound(b, opts, t);
      PayloadSound(b, opts, t);
    }
  }

  lemma MethodSound(b: bytes, opts: Options, t: int)
    requires |b| <= PTRDIFF_MAX && 0 <= t < |b| && ReadableVTable(b, t)
    ensures VerifyMethod(b, opts, t).Ok?
    ensures VerifyMethod(b, opts, t) == Ok(true) ==>
              && Method(b, t).Ok?
              && (Method(b, t).value.Some? ==>
                    var s := StringBytes(b, Method(b, t).value.value);
                    s.Ok? && s.value.1 == 0)
  {
    hide VerifyFieldOffset, GetPointer, ReadableVTable, StringBytes, VerifyVectorOrString;
    PointerSound(b, opts, t, VT_METHOD);
    if VerifyFieldOffset(b, opts, t, VT_METHOD) == Ok(true) && Method(b, t).value.Some? {
      StringSound(b, opts, Method(b, t).value.value);
    }
  }

  lemma PayloadSound(b: bytes, opts: Options, t: int)
    requires |b| <= PTRDIFF_MAX && 0 <= t < |b| && ReadableVTable(b, t)
    ensures VerifyPayload(b, opts, t).Ok?
    ensures VerifyPayload(b, opts, t) == Ok(true) ==>
              && Payload(b, t).Ok?
              && (Payload(b, t).value.Some? ==> VectorBytes(b, Payload(b, t).value.value, 1).Ok?)
  {
    hide VerifyFieldOffset, GetPointer, ReadableVTable, VectorBytes, VerifyVectorOrString;
    PointerSound(b, opts, t, VT_PAYLOAD);
    if VerifyFieldOffset(b, opts, t, VT_PAYLOAD) == Ok(true) && Payload(b, t).value.Some? {
      VectorSound(b, opts, Payload(b, t).value.value, 1);
    }
  }
}
