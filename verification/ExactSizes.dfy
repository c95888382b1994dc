/**
 How long the objects of an RPC message are, to the byte. Everything in such a message is
 aligned to four bytes at most, so on a buffer that is a multiple of four long the padding
 depends on the object alone.
 */
module ExactSizes {
  import opened Bytes
  import opened BuilderModel
  import opened Objects

  /** `n` rounded up to a multiple of four. */
  function Rounded(n: nat): nat {
    n + Padding(n, 4)
  }

  /** Nothing so far has needed more than four-byte alignment, and the buffer is a multiple of four long. */
  predicate Tidy(b: Buf) {
    Aligned(|b.data|, 4) && (b.minAlign == 1 || b.minAlign == 4)
  }

  /** `n` more bytes, and tidy again, now with four-byte alignment on record. */
  predicate TidyAfter(b: Buf, n: nat, r: Buf) {
    Tidy(r) && r.minAlign == 4 && |r.data| == |b.data| + n
  }

  lemma PaddingShifts(m: nat, n: nat)
    requires Aligned(m, 4)
    ensures Padding(m + n, 4) == Padding(n, 4)
  {
    RemAdd(m, n, 4);
  }

  lemma RoundedAligned(m: nat, n: nat)
    requires Aligned(m, 4)
    ensures Aligned(m + Rounded(n), 4) && Aligned(m + Rounded(n) + 4, 4)
  {
    RemAdd(m, Rounded(n), 4);
    AlignedShift4(m + Rounded(n));
  }

  lemma NothingToRound()
    ensures Rounded(0) == 0
  {
  }

  lemma NoPaddingToOne(n: nat)
    ensures Padding(n, 1) == 0
  {
  }

  /** A four-byte scalar on a tidy buffer takes four bytes. */
  lemma WordExact(b: Buf, value: nat)
    requires Tidy(b)
    ensures TidyAfter(b, 4, PushElement(b, 4, value))
  {
    PaddingUnique(|b.data|, 4, 0);
    AlignedShift4(|b.data|);
  }

  lemma StringExact(b: Buf, s: bytes)
    requires Tidy(b)
    ensures TidyAfter(b, Rounded(|s| + 1) + 4, CreateString(b, s))
  {
    hide PushElement, Aligned, Padding;
    PaddingShifts(|b.data|, |s| + 1);
    RoundedAligned(|b.data|, |s| + 1);
    WordExact(PushBytes(Pad(PreAlign(b, |s| + 1, 4), 1), s), |s|);
  }

  lemma BytesExact(b: Buf, raw: bytes)
    requires Tidy(b)
    ensures |raw| == |raw| * 1
    ensures TidyAfter(b, Rounded(|raw|) + 4, CreateVector(b, |raw|, 1, raw))
  {
    hide PushElement, Aligned, Padding;
    PaddingShifts(|b.data|, |raw|);
    RoundedAligned(|b.data|, |raw|);
    NoPaddingToOne(|PreAlign(b, |raw|, 4).data| + |raw|);
    NothingToRound();
    WordExact(PushBytes(StartVector(b, |raw|, 1), raw), |raw|);
  }

  lemma OffsetExact(st: Builder, id: nat, off: nat)
    requires Tidy(st.buf) && 0 < off <= |st.buf.data|
    ensures TidyAfter(st.buf, 4, AddOffset(st, id, off).buf)
    ensures AddOffset(st, id, off).maxVoffset == Max(id, st.maxVoffset)
    ensures AddOffset(st, id, off).forceDefaults == st.forceDefaults
  {
    hide PushElement, Aligned, Padding;
    PaddingUnique(|st.buf.data|, 4, 0);
    WordExact(Align(st.buf, 4), ReferTo(Align(st.buf, 4), off));
  }

  /** A stored scalar of at most four bytes takes, with the padding the next word needs, four. */
  lemma ElementExact(st: Builder, id: nat, w: nat, value: nat)
    requires (w == 1 || w == 4) && Tidy(st.buf) && st.buf.minAlign == 4 && !st.forceDefaults
    ensures var r := AddElement(st, id, w, value, 0);
            && r.forceDefaults == st.forceDefaults
            && r.maxVoffset <= Max(id, st.maxVoffset) && r.maxVoffset >= st.maxVoffset
            && TidyAfter(st.buf, (if value == 0 then 0 else 4) + 4, TableObject(r.buf))
            && (w == 4 ==> TidyAfter(st.buf, if value == 0 then 0 else 4, r.buf))
  {
    WordExact(st.buf, value);
    if value != 0 && w == 1 {
      NoPaddingToOne(|st.buf.data|);
      ByteThenWord(|st.buf.data|);
    } else {
      WordExact(AddElement(st, id, w, value, 0).buf, 0);
    }
  }

  lemma ByteThenWord(n: nat)
    requires Aligned(n, 4)
    ensures Padding(n + 1, 4) == 3 && Aligned(n + 8, 4)
  {
    AlignedShift4(n);
    AlignedShift4(n + 4);
    PaddingUnique(n + 1, 4, 3);
  }

  lemma FinishExact(b: Buf, root: nat)
    requires Tidy(b) && b.minAlign == 4 && root <= |b.data|
    ensures TidyAfter(b, 4, FinishBuf(b, root))
  {
    AlignedShift4(|b.data|);
    PaddingUnique(|b.data| + 4, 4, 0);
    PaddingUnique(|b.data|, 4, 0);
    PushOffsetExact(PreAlign(b, 4, 4), root);
    PushOffsetMinAlign(PreAlign(b, 4, 4), root);
  }
}
