/**
 The verifier as it runs: a constant buffer, and counters that each table start raises and
 each table end lowers (verifier.h). Its verdicts are those of the functions in Verifier.
 */
module VerifierRun {
  import opened Bits
  import opened Bytes
  import opened Wrappers
  import opened Table
  import opened RpcMessage
  import VerifierExact
  import V = Verifier

  class Verifier {
    const buf: bytes
    const opts: V.Options
    var depth: nat
    var numTables: nat

    constructor (buf: bytes, opts: V.Options)
      ensures this.buf == buf && this.opts == opts && Counters() == V.START
    {
      this.buf, this.opts := buf, opts;
      depth, numTables := 0, 0;
    }

    function Counters(): V.Counters
      reads this
    {
      V.Counters(depth, numTables)
    }

    method VerifyComplexity() returns (ok: bool)
      modifies this
      ensures Counters() == V.VerifyComplexity(old(Counters()))
      ensures ok == V.WithinLimits(opts, Counters())
    {
      depth := depth + 1;
      numTables := numTables + 1;
      ok := depth <= opts.maxDepth && numTables <= opts.maxTables;
    }

    /** One table less open; the number of tables seen stays. */
    method EndTable() returns (ok: bool)
      requires depth > 0
      modifies `depth
      ensures depth == old(depth) - 1 && ok
    {
      depth := depth - 1;
      ok := true;
    }

    method VerifyTableStart(t: int) returns (r: Checked<bool>)
      modifies this
      ensures r == V.VerifyTableStart(buf, opts, old(Counters()), t)
      ensures r == Ok(true) ==> Counters() == V.VerifyComplexity(old(Counters()))
    {
      hide V.VerifyScalar, V.VerifyAlignment, V.Verify, And, FromLE;
      var tableo := V.SizeT(t);
      if !V.VerifyScalar(buf, opts, tableo, 4) { return Ok(false); }
      var soffset := LoadSigned(buf, t, 4);
      if soffset.Fault? { return Fault; }
      var vtableo := V.SizeT(tableo - V.SizeT(soffset.value));
      var within := VerifyComplexity();
      if !within || !V.VerifyScalar(buf, opts, vtableo, 2) { return Ok(false); }
      var vsize := Load(buf, vtableo, 2);
      if vsize.Fault? { return Fault; }
      return Ok(V.VerifyAlignment(opts, vsize.value, 2) && And(vsize.value, 1) == 0
          && V.Verify(buf, vtableo, vsize.value));
    }

    /** RpcMessage::Verify: an accepted table leaves as many tables open as it found. */
    method VerifyRpcMessage(t: int) returns (r: Checked<bool>)
      modifies this
      ensures r == VerifyTable(buf, opts, old(Counters()), t)
      ensures r == Ok(true) ==> depth == old(depth) && numTables == old(numTables) + 1
    {
      hide V.VerifyTableStart, V.VerifyField, VerifyMethod, VerifyPayload;
      var start := VerifyTableStart(t);
      if start != Ok(true) { return start; }
      var typeOk := V.VerifyField(buf, opts, t, VT_TYPE, 1, 1);
      if typeOk != Ok(true) { return typeOk; }
      var idOk := V.VerifyField(buf, opts, t, VT_ID, 4, 4);
      if idOk != Ok(true) { return idOk; }
      var methodOk := VerifyMethod(buf, opts, t);
      if methodOk != Ok(true) { return methodOk; }
      var payloadOk := VerifyPayload(buf, opts, t);
      if payloadOk != Ok(true) { return payloadOk; }
      var ended := EndTable();
      return Ok(ended);
    }
  }

  /** VerifyBuffer<RpcMessage> on a new verifier. */
  method VerifyRpcBuffer(b: bytes) returns (r: Checked<bool>)
    requires |b| <= V.PTRDIFF_MAX
    ensures r == VerifyBuffer(b, V.DEFAULT_OPTIONS)
    ensures r == Ok(VerifierExact.Acceptable(b, V.DEFAULT_OPTIONS))
    ensures r == Ok(true) ==> Table.GetRoot(b).Ok? && SafeToRead(b, Table.GetRoot(b).value)
  {
    hide V.VerifyOffset, VerifyTable, SafeToRead, VerifierExact.Acceptable;
    VerifierSound(b, V.DEFAULT_OPTIONS);
    VerifierExact.VerifierExact(b, V.DEFAULT_OPTIONS);
    if |b| < V.MIN_BUFFER_SIZE { return Ok(false); }
    var o := V.VerifyOffset(b, V.DEFAULT_OPTIONS, 0);
    if o.Fault? { return Fault; }
    if o.value == 0 { return Ok(false); }
    var verifier := new Verifier(b, V.DEFAULT_OPTIONS);
    r := verifier.VerifyRpcMessage(o.value);
  }
}
