/**
 The buffer verifier (verifier.h, and the Verify members of table.h). Every check is a
 function of the buffer; positions are size_t values, so pointer differences wrap modulo
 2^64 exactly where the source lets them. The verifier's own loads are checked too.
 */
module Verifier {
  import opened Bits
  import opened Bytes
  import opened Wrappers
  import opened Table

  const MAX_BUFFER_SIZE: nat := 0x7FFF_FFFF
  const PTRDIFF_MAX: nat := 0x7FFF_FFFF_FFFF_FFFF
  const MIN_BUFFER_SIZE: nat := 12

  datatype Options = Options(maxDepth: nat, maxTables: nat, checkAlignment: bool, maxSize: nat)

  const DEFAULT_OPTIONS := Options(64, 1000000, true, MAX_BUFFER_SIZE)

  /** The counters that bound how much structure is followed. */
  datatype Counters = Counters(depth: nat, tables: nat)

  const START := Counters(0, 0)

  function SizeT(i: int): (n: nat)
    ensures n < WORD
    ensures 0 <= i < WORD ==> n == i
  {
    i % WORD
  }

  predicate Verify(b: bytes, elem: nat, len: nat) {
    len < |b| && elem <= |b| - len
  }

  predicate VerifyAlignment(opts: Options, elem: nat, align: nat)
    requires align > 0
  {
    And(elem, align - 1) == 0 || !opts.checkAlignment
  }

  predicate VerifyScalar(b: bytes, opts: Options, elem: nat, w: nat)
    requires w > 0
  {
    VerifyAlignment(opts, elem, w) && Verify(b, elem, w)
  }

  /** The end position of an acceptable vector or string. */
  function VerifyVectorOrString(b: bytes, opts: Options, vec: int, elemSize: nat): Checked<Option<nat>>
    requires elemSize > 0
  {
    var vecOffset := SizeT(vec);
    if !VerifyScalar(b, opts, vecOffset, 4) then Ok(None)
    else
      var size :- Load(b, vec, 4);
      if size >= opts.maxSize / elemSize then Ok(None)
      else
        var byteSize := SizeT(4 + elemSize * size);
        Ok(if Verify(b, vecOffset, byteSize) then Some(SizeT(vecOffset + byteSize)) else None)
  }

  function VerifyVector(b: bytes, opts: Options, vec: Option<int>, elemSize: nat): Checked<bool>
    requires elemSize > 0
  {
    if vec.None? then Ok(true)
    else
      var end :- VerifyVectorOrString(b, opts, vec.value, elemSize);
      Ok(end.Some?)
  }

  function VerifyString(b: bytes, opts: Options, str: Option<int>): Checked<bool> {
    if str.None? then Ok(true)
    else
      var end :- VerifyVectorOrString(b, opts, str.value, 1);
      if end.None? || !Verify(b, end.value, 1) then Ok(false)
      else
        var last :- Load(b, end.value, 1);
        Ok(last == 0)
  }

  function VerifyComplexity(c: Counters): Counters {
    Counters(c.depth + 1, c.tables + 1)
  }

  predicate WithinLimits(opts: Options, c: Counters) {
    c.depth <= opts.maxDepth && c.tables <= opts.maxTables
  }

  function VerifyTableStart(b: bytes, opts: Options, c: Counters, t: int): Checked<bool> {
    var tableo := SizeT(t);
    if !VerifyScalar(b, opts, tableo, 4) then Ok(false)
    else
      var soffset :- LoadSigned(b, t, 4);
      var vtableo := SizeT(tableo - SizeT(soffset));
      if !(WithinLimits(opts, VerifyComplexity(c)) && VerifyScalar(b, opts, vtableo, 2)) then Ok(false)
      else
        var vsize :- Load(b, vtableo, 2);
        Ok(VerifyAlignment(opts, vsize, 2) && And(vsize, 1) == 0 && Verify(b, vtableo, vsize))
  }

  function VerifyField(b: bytes, opts: Options, t: int, field: nat, w: nat, align: nat): Checked<bool>
    requires align > 0
  {
    var fo :- GetOptionalFieldOffset(b, t, field);
    Ok(fo == 0 ||
       var f := SizeT(SizeT(t) + fo);
       VerifyAlignment(opts, f, align) && Verify(b, f, w))
  }

  /** The relative offset stored at `start`, 0 when it is unacceptable. */
  function VerifyOffset(b: bytes, opts: Options, start: nat): Checked<nat> {
    if !VerifyScalar(b, opts, start, 4) then Ok(0)
    else
      var o :- Load(b, start, 4);
      if o == 0 || Signed(o, 4) < 0 || !Verify(b, SizeT(start + o), 1) then Ok(0) else Ok(o)
  }

  function VerifyFieldOffset(b: bytes, opts: Options, t: int, field: nat): Checked<bool> {
    var fo :- GetOptionalFieldOffset(b, t, field);
    if fo == 0 then Ok(true)
    else
      var o :- VerifyOffset(b, opts, SizeT(SizeT(t) + fo));
      Ok(o != 0)
  }

  // ---------- What an accepted part guarantees ----------

  /** The vtable of `t` can be read in full. */
  predicate ReadableVTable(b: bytes, t: int) {
    && GetVTable(b, t).Ok?
    && var vt := GetVTable(b, t).value;
    && Load(b, vt, 2).Ok?
    && Load(b, vt, 2).value % 2 == 0
    && LoadBytes(b, vt, Load(b, vt, 2).value).Ok?
  }

  lemma TableStartSound(b: bytes, opts: Options, c: Counters, t: int)
    requires |b| <= PTRDIFF_MAX && 0 <= t < |b|
    ensures VerifyTableStart(b, opts, c, t).Ok?
    ensures VerifyTableStart(b, opts, c, t) == Ok(true) ==> ReadableVTable(b, t)
  {
    Pow256Values();
    if VerifyScalar(b, opts, SizeT(t), 4) {
      FromLEBound(b[t..t + 4]);
      var so := LoadSigned(b, t, 4).value;
      var vtableo := SizeT(SizeT(t) - SizeT(so));
      assert vtableo == SizeT(t - so);
      if VerifyScalar(b, opts, vtableo, 2) {
        assert vtableo == t - so;
        var vsize := Load(b, vtableo, 2).value;
        AlignTest(vsize, 2);
        RemIsMod(vsize, 2);
      }
    }
  }

  /** Even field numbers can be looked up in a readable vtable. */
  lemma FieldLookupSound(b: bytes, t: int, field: nat)
    requires ReadableVTable(b, t) && field % 2 == 0
    ensures GetOptionalFieldOffset(b, t, field).Ok?
  {
  }

  lemma FieldSound(b: bytes, opts: Options, t: int, field: nat, w: nat, align: nat, def: nat)
    requires |b| <= PTRDIFF_MAX && 0 <= t < |b| && align > 0
    requires ReadableVTable(b, t) && field % 2 == 0
    ensures VerifyField(b, opts, t, field, w, align).Ok?
    ensures VerifyField(b, opts, t, field, w, align) == Ok(true) ==> GetField(b, t, field, w, def).Ok?
  {
    FieldOffsetBound(b, t, field);
  }

  lemma FieldOffsetBound(b: bytes, t: int, field: nat)
    requires ReadableVTable(b, t) && field % 2 == 0
    ensures GetOptionalFieldOffset(b, t, field).Ok?
    ensures GetOptionalFieldOffset(b, t, field).value < 0x1_0000
  {
    Pow256Values();
    FieldLookupSound(b, t, field);
    var vt := GetVTable(b, t).value;
    if field < Load(b, vt, 2).value { FromLEBound(b[vt + field..vt + field + 2]); }
  }

  lemma PointerSound(b: bytes, opts: Options, t: int, field: nat)
    requires |b| <= PTRDIFF_MAX && 0 <= t < |b|
    requires ReadableVTable(b, t) && field % 2 == 0
    ensures VerifyFieldOffset(b, opts, t, field).Ok?
    ensures VerifyFieldOffset(b, opts, t, field) == Ok(true) ==>
              && GetPointer(b, t, field).Ok?
              && (GetPointer(b, t, field).value.Some? ==> 0 <= GetPointer(b, t, field).value.value < |b|)
  {
    FieldOffsetBound(b, t, field);
    var fo := GetOptionalFieldOffset(b, t, field).value;
    OffsetSound(b, opts, t + fo);
  }

  lemma OffsetSound(b: bytes, opts: Options, start: nat)
    requires |b| <= PTRDIFF_MAX
    ensures VerifyOffset(b, opts, start).Ok?
    ensures var o := VerifyOffset(b, opts, start).value;
            o != 0 ==> Load(b, start, 4) == Ok(o) && start + o < |b|
  {
    Pow256Values();
    if VerifyScalar(b, opts, start, 4) { FromLEBound(b[start..start + 4]); }
  }

  lemma VectorSound(b: bytes, opts: Options, vec: int, elemSize: nat)
    requires |b| <= PTRDIFF_MAX && 0 <= vec < |b| && 0 < elemSize <= 8
    ensures VerifyVectorOrString(b, opts, vec, elemSize).Ok?
    ensures var end := VerifyVectorOrString(b, opts, vec, elemSize).value;
            end.Some? ==>
              && VectorBytes(b, vec, elemSize).Ok?
              && end.value == vec + 4 + VectorSize(b, vec).value * elemSize
  {
    Pow256Values();
    if VerifyScalar(b, opts, SizeT(vec), 4) {
      FromLEBound(b[vec..vec + 4]);
      var size := Load(b, vec, 4).value;
      assert elemSize * size <= 8 * size;
      assert elemSize * size == size * elemSize;
    }
  }

  lemma StringSound(b: bytes, opts: Options, str: int)
    requires |b| <= PTRDIFF_MAX && 0 <= str < |b|
    ensures VerifyString(b, opts, Some(str)).Ok?
    ensures VerifyString(b, opts, Some(str)) == Ok(true) ==>
              StringBytes(b, str).Ok? && StringBytes(b, str).value.1 == 0
  {
    VectorSound(b, opts, str, 1);
  }

  // ---------- What is accepted ----------

  lemma ScalarComplete(b: bytes, opts: Options, elem: nat, w: nat)
    requires IsAlign(w) && Aligned(elem, w) && w < |b| && elem + w <= |b|
    ensures VerifyScalar(b, opts, elem, w)
  {
    AlignTest(elem, w);
  }

  lemma TableStartComplete(b: bytes, opts: Options, c: Counters, t: nat)
    requires |b| <= PTRDIFF_MAX && WithinLimits(opts, VerifyComplexity(c))
    requires Aligned(t, 4) && ReadableVTable(b, t)
    requires var vt := GetVTable(b, t).value;
             && Aligned(vt, 2) && Load(b, vt, 2).value < |b| && 4 < |b|
    ensures VerifyTableStart(b, opts, c, t) == Ok(true)
  {
    Pow256Values();
    ScalarComplete(b, opts, t, 4);
    FromLEBound(b[t..t + 4]);
    var so := LoadSigned(b, t, 4).value;
    assert SizeT(SizeT(t) - SizeT(so)) == t - so;
    ScalarComplete(b, opts, t - so, 2);
    AlignTest(Load(b, t - so, 2).value, 2);
    RemIsMod(Load(b, t - so, 2).value, 2);
  }

  lemma FieldComplete(b: bytes, opts: Options, t: nat, field: nat, w: nat, align: nat)
    requires |b| <= PTRDIFF_MAX && IsAlign(align)
    requires GetOptionalFieldOffset(b, t, field).Ok?
    requires var fo := GetOptionalFieldOffset(b, t, field).value;
             fo != 0 ==> w < |b| && t + fo + w <= |b| && Aligned(t + fo, align)
    ensures VerifyField(b, opts, t, field, w, align) == Ok(true)
  {
    var fo := GetOptionalFieldOffset(b, t, field).value;
    if fo != 0 { AlignTest(t + fo, align); }
  }

  lemma PointerComplete(b: bytes, opts: Options, t: nat, field: nat)
    requires 4 < |b| <= MAX_BUFFER_SIZE
    requires GetPointer(b, t, field).Ok?
    requires var p := GetPointer(b, t, field).value;
             var fo := GetOptionalFieldOffset(b, t, field).value;
             p.Some? ==> Aligned(t + fo, 4) && t + fo < p.value < |b|
    ensures VerifyFieldOffset(b, opts, t, field) == Ok(true)
  {
    Pow256Values();
    var fo := GetOptionalFieldOffset(b, t, field).value;
    if fo != 0 {
      ScalarComplete(b, opts, t + fo, 4);
    }
  }

  lemma VectorComplete(b: bytes, opts: Options, vec: nat)
    requires |b| <= PTRDIFF_MAX && 0 < vec && Aligned(vec, 4)
    requires VectorBytes(b, vec, 1).Ok? && VectorSize(b, vec).value < opts.maxSize
    ensures VerifyVectorOrString(b, opts, vec, 1) == Ok(Some(vec + 4 + VectorSize(b, vec).value))
  {
    ScalarComplete(b, opts, vec, 4);
    var n := VectorSize(b, vec).value;
    assert n * 1 == n;
  }

  lemma StringComplete(b: bytes, opts: Options, str: nat)
    requires |b| <= PTRDIFF_MAX && 0 < str && Aligned(str, 4)
    requires StringBytes(b, str).Ok? && StringBytes(b, str).value.1 == 0 && VectorSize(b, str).value < opts.maxSize
    ensures VerifyString(b, opts, Some(str)) == Ok(true)
  {
    assert VectorSize(b, str).value * 1 == VectorSize(b, str).value;
    VectorComplete(b, opts, str);
  }
}
