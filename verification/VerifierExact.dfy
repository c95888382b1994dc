/**
 Exactly which buffers the verifier accepts (verifier.h, rpc_generated.h): every object the
 accessors follow is where the buffer's own offsets say, inside the buffer, and, while the
 alignment check is on, at a multiple of its size.
 */
module VerifierExact {
  import opened Bytes
  import opened Wrappers
  import opened Table
  import opened Verifier
  import opened RpcMessage

  // ---------- What is acceptable ----------

  predicate WellPlaced(opts: Options, n: nat, a: nat) {
    opts.checkAlignment ==> Aligned(n, a)
  }

  /** The table at `t` and its vtable: complete, aligned, and the vtable shorter than the buffer. */
  predicate TableFits(b: bytes, opts: Options, t: nat) {
    && WellPlaced(opts, t, 4) && 4 < |b|
    && ReadableVTable(b, t)
    && var vt := GetVTable(b, t).value;
    && WellPlaced(opts, vt, 2) && Load(b, vt, 2).value < |b|
  }

  /** A stored field of `w` bytes lies in the buffer at a multiple of its size. */
  predicate FieldFits(b: bytes, opts: Options, t: nat, field: nat, w: nat) {
    && GetOptionalFieldOffset(b, t, field).Ok?
    && var fo := GetOptionalFieldOffset(b, t, field).value;
    fo != 0 ==> WellPlaced(opts, t + fo, w) && w < |b| && t + fo + w <= |b|
  }

  /** An offset that leads forward to a byte of the buffer. */
  predicate OffsetFits(b: bytes, opts: Options, pos: nat) {
    && WellPlaced(opts, pos, 4) && 4 < |b| && Load(b, pos, 4).Ok?
    && 0 < Load(b, pos, 4).value <= MAX_BUFFER_SIZE
    && pos + Load(b, pos, 4).value < |b|
  }

  predicate PointerFits(b: bytes, opts: Options, t: nat, field: nat) {
    && GetOptionalFieldOffset(b, t, field).Ok?
    && var fo := GetOptionalFieldOffset(b, t, field).value;
    fo != 0 ==> OffsetFits(b, opts, t + fo)
  }

  /** A vector of elements of this size, or the characters of a string. */
  predicate VectorFits(b: bytes, opts: Options, vec: nat, elemSize: nat)
    requires elemSize > 0
  {
    && WellPlaced(opts, vec, 4) && 4 < |b|
    && VectorBytes(b, vec, elemSize).Ok?
    && VectorSize(b, vec).value < opts.maxSize / elemSize && 4 + VectorSize(b, vec).value * elemSize < |b|
  }

  predicate StringFits(b: bytes, opts: Options, str: nat) {
    && VectorFits(b, opts, str, 1)
    && StringBytes(b, str).Ok? && StringBytes(b, str).value.1 == 0
  }

  predicate MethodFits(b: bytes, opts: Options, t: nat) {
    && PointerFits(b, opts, t, VT_METHOD)
    && var p := Method(b, t);
    p.Ok? && (p.value.Some? ==> p.value.value >= 0 && StringFits(b, opts, p.value.value))
  }

  predicate PayloadFits(b: bytes, opts: Options, t: nat) {
    && PointerFits(b, opts, t, VT_PAYLOAD)
    && var p := Payload(b, t);
    p.Ok? && (p.value.Some? ==> p.value.value >= 0 && VectorFits(b, opts, p.value.value, 1))
  }

  /** All that VerifyBuffer asks of a buffer. */
  predicate Acceptable(b: bytes, opts: Options) {
    && |b| >= MIN_BUFFER_SIZE && opts.maxDepth >= 1 && opts.maxTables >= 1
    && OffsetFits(b, opts, 0)
    && var t := Load(b, 0, 4).value;
    && TableFits(b, opts, t)
    && FieldFits(b, opts, t, VT_TYPE, 1) && FieldFits(b, opts, t, VT_ID, 4)
    && MethodFits(b, opts, t) && PayloadFits(b, opts, t)
  }

  // ---------- Part by part ----------

  lemma ScalarExact(b: bytes, opts: Options, elem: nat, w: nat)
    requires IsAlign(w)
    ensures VerifyScalar(b, opts, elem, w) <==> WellPlaced(opts, elem, w) && w < |b| && elem + w <= |b|
  {
    AlignTest(elem, w);
  }

  lemma TableExact(b: bytes, opts: Options, c: Counters, t: nat)
    requires |b| <= PTRDIFF_MAX && t < |b|
    ensures VerifyTableStart(b, opts, c, t) == Ok(WithinLimits(opts, VerifyComplexity(c)) && TableFits(b, opts, t))
  {
    Pow256Values();
    ScalarExact(b, opts, t, 4);
    if VerifyScalar(b, opts, t, 4) {
      FromLEBound(b[t..t + 4]);
      var so := LoadSigned(b, t, 4).value;
      var vtableo := SizeT(SizeT(t) - SizeT(so));
      assert vtableo == SizeT(t - so);
      ScalarExact(b, opts, vtableo, 2);
      if VerifyScalar(b, opts, vtableo, 2) {
        assert vtableo == t - so;
        var vsize := Load(b, vtableo, 2).value;
        AlignTest(vsize, 2);
        RemIsMod(vsize, 2);
      } else if t - so >= 0 {
        assert vtableo == t - so;
      }
    }
  }

  lemma FieldExact(b: bytes, opts: Options, t: nat, field: nat, w: nat)
    requires |b| <= PTRDIFF_MAX && t < |b| && IsAlign(w)
    requires ReadableVTable(b, t) && field % 2 == 0
    ensures VerifyField(b, opts, t, field, w, w) == Ok(FieldFits(b, opts, t, field, w))
  {
    FieldOffsetBound(b, t, field);
    var fo := GetOptionalFieldOffset(b, t, field).value;
    AlignTest(t + fo, w);
  }

  lemma OffsetExact(b: bytes, opts: Options, pos: nat)
    requires |b| <= PTRDIFF_MAX
    ensures VerifyOffset(b, opts, pos) == Ok(if OffsetFits(b, opts, pos) then Load(b, pos, 4).value else 0)
  {
    Pow256Values();
    ScalarExact(b, opts, pos, 4);
    if VerifyScalar(b, opts, pos, 4) { FromLEBound(b[pos..pos + 4]); }
  }

  lemma PointerExact(b: bytes, opts: Options, t: nat, field: nat)
    requires |b| <= PTRDIFF_MAX && t < |b|
    requires ReadableVTable(b, t) && field % 2 == 0
    ensures VerifyFieldOffset(b, opts, t, field) == Ok(PointerFits(b, opts, t, field))
    ensures PointerFits(b, opts, t, field) ==>
              && GetPointer(b, t, field).Ok?
              && (GetPointer(b, t, field).value.Some? ==> 0 <= GetPointer(b, t, field).value.value < |b|)
  {
    FieldOffsetBound(b, t, field);
    var fo := GetOptionalFieldOffset(b, t, field).value;
    OffsetExact(b, opts, t + fo);
  }

  lemma VectorExact(b: bytes, opts: Options, vec: nat, elemSize: nat)
    requires |b| <= PTRDIFF_MAX && vec < |b| && 0 < elemSize <= 8
    ensures VerifyVectorOrString(b, opts, vec, elemSize)
            == Ok(if VectorFits(b, opts, vec, elemSize) then Some(vec + 4 + VectorSize(b, vec).value * elemSize)
                  else None)
  {
    Pow256Values();
    ScalarExact(b, opts, vec, 4);
    if VerifyScalar(b, opts, vec, 4) {
      FromLEBound(b[vec..vec + 4]);
      var size := Load(b, vec, 4).value;
      assert elemSize * size <= 8 * size;
      assert elemSize * size == size * elemSize;
    }
  }

  lemma StringExact(b: bytes, opts: Options, str: nat)
    requires |b| <= PTRDIFF_MAX && str < |b|
    ensures VerifyString(b, opts, Some(str)) == Ok(StringFits(b, opts, str))
  {
    VectorExact(b, opts, str, 1);
    if VectorFits(b, opts, str, 1) { assert VectorSize(b, str).value * 1 == VectorSize(b, str).value; }
  }

  lemma MethodExact(b: bytes, opts: Options, t: nat)
    requires |b| <= PTRDIFF_MAX && t < |b| && ReadableVTable(b, t)
    ensures VerifyMethod(b, opts, t) == Ok(MethodFits(b, opts, t))
  {
    hide VerifyFieldOffset, PointerFits, VerifyVectorOrString, StringFits, GetPointer, ReadableVTable;
    PointerExact(b, opts, t, VT_METHOD);
    if PointerFits(b, opts, t, VT_METHOD) && Method(b, t).value.Some? {
      StringExact(b, opts, Method(b, t).value.value);
    }
  }

  lemma PayloadExact(b: bytes, opts: Options, t: nat)
    requires |b| <= PTRDIFF_MAX && t < |b| && ReadableVTable(b, t)
    ensures VerifyPayload(b, opts, t) == Ok(PayloadFits(b, opts, t))
  {
    hide VerifyFieldOffset, PointerFits, VerifyVectorOrString, VectorFits, GetPointer, ReadableVTable;
    PointerExact(b, opts, t, VT_PAYLOAD);
    if PointerFits(b, opts, t, VT_PAYLOAD) && Payload(b, t).value.Some? {
      VectorExact(b, opts, Payload(b, t).value.value, 1);
    }
  }

  // ---------- The whole buffer ----------

  lemma MessageExact(b: bytes, opts: Options, c: Counters, t: nat)
    requires |b| <= PTRDIFF_MAX && t < |b|
    ensures VerifyTable(b, opts, c, t)
            == Ok(&& WithinLimits(opts, VerifyComplexity(c)) && TableFits(b, opts, t)
                  && FieldFits(b, opts, t, VT_TYPE, 1) && FieldFits(b, opts, t, VT_ID, 4)
                  && MethodFits(b, opts, t) && PayloadFits(b, opts, t))
  {
    hide VerifyTableStart, VerifyField, VerifyMethod, VerifyPayload, FieldFits, MethodFits, PayloadFits,
         ReadableVTable, WithinLimits, VerifyComplexity;
    TableExact(b, opts, c, t);
    if TableFits(b, opts, t) {
      FieldExact(b, opts, t, VT_TYPE, 1);
      FieldExact(b, opts, t, VT_ID, 4);
      MethodExact(b, opts, t);
      PayloadExact(b, opts, t);
    }
  }

  /** The verifier accepts exactly the acceptable buffers: for all bytes and all options. */
  lemma VerifierExact(b: bytes, opts: Options)
    requires |b| <= PTRDIFF_MAX
    ensures VerifyBuffer(b, opts) == Ok(Acceptable(b, opts))
  {
    hide VerifyTable, VerifyOffset, TableFits, FieldFits, MethodFits, PayloadFits;
    OffsetExact(b, opts, 0);
    if OffsetFits(b, opts, 0) { MessageExact(b, opts, START, Load(b, 0, 4).value); }
  }

  /** With the alignment check on, everything the accessors load from an accepted buffer is aligned. */
  lemma AcceptedAligned(b: bytes, opts: Options)
    requires |b| <= PTRDIFF_MAX && opts.checkAlignment && VerifyBuffer(b, opts) == Ok(true)
    ensures GetRoot(b).Ok? && GetRoot(b).value >= 0
    ensures var t := GetRoot(b).value;
            && Aligned(t, 4)
            && GetVTable(b, t).Ok? && GetVTable(b, t).value >= 0 && Aligned(GetVTable(b, t).value, 2)
            && (forall field :: field in {VT_ID, VT_METHOD, VT_PAYLOAD} ==>
                  var fo := GetOptionalFieldOffset(b, t, field);
                  fo.Ok? && (fo.value != 0 ==> Aligned(t + fo.value, 4)))
            && (forall p :: p in {Method(b, t), Payload(b, t)} ==>
                  p.Ok? && (p.value.Some? ==> p.value.value >= 0 && Aligned(p.value.value, 4)))
  {
    hide VerifyBuffer, GetOptionalFieldOffset, GetPointer, VectorBytes, StringBytes, Aligned, FromLE, Signed;
    VerifierExact(b, opts);
  }
}
