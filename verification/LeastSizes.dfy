/**
 No byte too many: every object FlatBufferBuilder writes takes the fewest bytes its
 alignment allows, a vtable ends with the last field stored, and the alignment on record is
 never more than some object needs.
 */
module LeastSizes {
  import opened Bytes
  import opened Wrappers
  import opened Table
  import opened BuilderModel
  import opened TableLayout
  import opened TableRoundTrip
  import opened Objects

  /**
   `r` is `n` bytes, the fewest zeros that let its size be a multiple of `a`, and then `b`;
   the alignment on record is the greater of what it was and `a`.
   */
  predicate Tight(b: Buf, n: nat, a: nat, r: Buf) {
    && r.minAlign == Max(a, b.minAlign)
    && |r.data| >= |b.data| + n && Aligned(|r.data|, a)
    && r.data[n..] == Zeros(|r.data| - |b.data| - n) + b.data
    && forall m :: |b.data| + n <= m < |r.data| ==> !Aligned(m, a)
  }

  lemma TightIs(b: Buf, n: nat, a: nat, r: Buf)
    requires a > 0 && r.minAlign == Max(a, b.minAlign)
    requires n <= |r.data| && r.data[n..] == Zeros(Padding(|b.data| + n, a)) + b.data
    ensures Tight(b, n, a, r)
  {
    hide Padding, Aligned;
    forall m | |b.data| + n <= m < |r.data| ensures !Aligned(m, a) {
      if Aligned(m, a) { PaddingLeast(|b.data| + n, a, m - |b.data| - n); }
    }
  }

  /** Padding in front of a word is the same before and behind it. */
  lemma PaddingPastWord(n: nat, w: nat)
    requires w > 0
    ensures Padding(n + w, w) == Padding(n, w)
  {
    assert Aligned(w, w);
    RemAdd(w, n, w);
  }

  /** A scalar on the buffer: padding to its own size, and its bytes. */
  lemma ScalarLeast(b: Buf, w: nat, value: nat)
    requires IsAlign(w)
    ensures Tight(b, w, w, PushElement(b, w, value))
  {
    hide Padding, Aligned, ToLE;
    PaddingPastWord(|b.data|, w);
    TightIs(b, w, w, PushElement(b, w, value));
  }

  /** A word behind something that was pre-aligned for it needs no padding. */
  lemma LengthFits(b: Buf, value: nat)
    requires Aligned(|b.data|, 4)
    ensures var r := PushElement(b, 4, value);
            r.minAlign == Max(4, b.minAlign) && |r.data| == |b.data| + 4 && r.data[4..] == b.data
  {
    hide Padding, ToLE;
    PaddingUnique(|b.data|, 4, 0);
    assert Zeros(0) + b.data == b.data;
  }

  /** Zeros in front of zeros. */
  lemma ZerosJoin(m: nat, n: nat, d: bytes)
    ensures Zeros(m) + (Zeros(n) + d) == Zeros(m + n) + d
  {
  }

  lemma DropMore(d: bytes, k: nat, n: nat)
    requires k + n <= |d|
    ensures d[k..][n..] == d[k + n..]
  {
  }

  lemma StringLeast(b: Buf, s: bytes)
    ensures Tight(b, |s| + 5, 4, CreateString(b, s))
  {
    hide PushElement, Padding, Aligned;
    var chars := PushBytes(Pad(PreAlign(b, |s| + 1, 4), 1), s);
    assert |chars.data| == |b.data| + |s| + 1 + Padding(|b.data| + |s| + 1, 4);
    LengthFits(chars, |s|);
    PaddingPastWord(|b.data| + |s| + 1, 4);
    DropMore(CreateString(b, s).data, 4, |s| + 1);
    assert chars.data[|s| + 1..] == PreAlign(b, |s| + 1, 4).data;
    TightIs(b, |s| + 5, 4, CreateString(b, s));
  }

  /** A vector of words or smaller elements, and an empty one, is aligned as its length is. */
  lemma VectorLeast(b: Buf, len: nat, w: nat, raw: bytes)
    requires IsAlign(w) && |raw| == len * w && (w <= 4 || len == 0)
    ensures Tight(b, len * w + 4, 4, CreateVector(b, len, w, raw))
  {
    hide PushElement, Padding, Aligned;
    var n := len * w;
    var started := StartVector(b, len, w);
    NoElements(len, w);
    if n > 0 {
      PreAligned(b, n, 4);
      AlignedWeaker(|PreAlign(b, n, 4).data| + n, 4, w);
      PaddingUnique(|PreAlign(b, n, 4).data| + n, w, 0);
      ZerosJoin(0, Padding(|b.data| + n, 4), b.data);
      LengthFits(PushBytes(started, raw), len);
      PaddingPastWord(|b.data| + n, 4);
      DropMore(CreateVector(b, len, w, raw).data, 4, n);
      assert (raw + started.data)[n..] == started.data;
      TightIs(b, n + 4, 4, CreateVector(b, len, w, raw));
    } else {
      assert PushBytes(started, raw).data == b.data;
      ScalarLeast(b, 4, len);
    }
  }

  lemma NoElements(len: nat, w: nat)
    requires w > 0
    ensures len * w == 0 <==> len == 0
  {
  }

  lemma PreAligned(b: Buf, n: nat, a: nat)
    requires IsAlign(a) && n > 0
    ensures Aligned(|PreAlign(b, n, a).data| + n, a) && PreAlign(b, n, a).minAlign == Max(a, b.minAlign)
    ensures PreAlign(b, n, a).data == Zeros(Padding(|b.data| + n, a)) + b.data
  {
    hide Padding, Aligned;
    assert |b.data| + Padding(|b.data| + n, a) + n == |b.data| + n + Padding(|b.data| + n, a);
  }

  /** Larger elements bring their own alignment, and the length in front of them costs no more than itself. */
  lemma WideVectorLeast(b: Buf, len: nat, w: nat, raw: bytes)
    requires IsAlign(w) && w > 4 && len > 0 && |raw| == len * w
    ensures var r := CreateVector(b, len, w, raw);
            |r.data| >= 4 && Tight(b, len * w, w, Buf(r.data[4..], r.minAlign))
  {
    hide PushElement, Padding, Aligned;
    var n := len * w;
    NoElements(len, w);
    var first := PreAlign(b, n, 4);
    var started := PreAlign(first, n, w);
    PreAligned(b, n, 4);
    PreAligned(first, n, w);
    TwicePadded(|b.data| + n, 4, w);
    AlignedWeaker(|started.data| + n, w, 4);
    LengthFits(PushBytes(started, raw), len);
    ZerosJoin(Padding(|first.data| + n, w), Padding(|b.data| + n, 4), b.data);
    var r := CreateVector(b, len, w, raw);
    assert (raw + started.data)[n..] == started.data;
    TightIs(b, n, w, Buf(r.data[4..], r.minAlign));
  }

  /** Padding to a smaller alignment first changes nothing. */
  lemma TwicePadded(n: nat, a: nat, w: nat)
    requires IsAlign(a) && IsAlign(w) && a <= w
    ensures Padding(n, a) + Padding(n + Padding(n, a), w) == Padding(n, w)
  {
    hide Padding, Aligned;
    var p, q := Padding(n, a), Padding(n, w);
    AlignedWeaker(n + q, w, a);
    PaddingLeast(n, a, q);
    PaddingLeast(n + p, w, q - p);
    PaddingLeast(n, w, p + Padding(n + p, w));
  }

  lemma OffsetVectorLeast(b: Buf, offs: seq<nat>)
    requires forall o :: o in offs ==> o <= |b.data|
    ensures Tight(b, 4 * |offs| + 4, 4, CreateOffsetVector(b, offs))
  {
    hide PushElement, PushOffsets, Padding, Aligned;
    var n := |offs| * 4;
    if offs != [] {
      PreAligned(b, n, 4);
      var first := PreAlign(b, n, 4);
      PreAligned(first, n, 4);
      PaddingUnique(|first.data| + n, 4, 0);
      ZerosJoin(0, Padding(|b.data| + n, 4), b.data);
      var started := StartVector(b, |offs|, 4);
      WordsBack(|started.data|, |offs|);
      OffsetsExact(started, offs);
      LengthFits(PushOffsets(started, offs), |offs|);
      PaddingPastWord(|b.data| + n, 4);
      DropMore(CreateOffsetVector(b, offs).data, 4, n);
      TightIs(b, n + 4, 4, CreateOffsetVector(b, offs));
    } else {
      assert PushOffsets(StartVector(b, 0, 4), offs) == b by { NothingToPush(b); }
      ScalarLeast(b, 4, 0);
    }
  }

  lemma NothingToPush(b: Buf)
    ensures PushOffsets(StartVector(b, 0, 4), []) == b
  {
  }

  lemma {:induction false} WordsBack(n: nat, k: nat)
    requires Aligned(n + k * 4, 4)
    ensures Aligned(n, 4)
    decreases k
  {
    if k > 0 {
      AlignedLess4(n + (k - 1) * 4);
      WordsBack(n, k - 1);
    }
  }

  lemma {:induction false} OffsetsExact(b: Buf, offs: seq<nat>)
    requires Aligned(|b.data|, 4) && forall o :: o in offs ==> o <= |b.data|
    ensures var r := PushOffsets(b, offs);
            && |r.data| == |b.data| + 4 * |offs| && Aligned(|r.data|, 4) && r.data[4 * |offs|..] == b.data
            && r.minAlign == if offs == [] then b.minAlign else Max(4, b.minAlign)
    decreases |offs|
  {
    hide PushElement, Padding, Aligned;
    if offs != [] {
      var n := |offs| - 1;
      assert offs[n] in offs && forall o :: o in offs[..n] ==> o in offs;
      OffsetExact(b, offs[n]);
      AlignedShift4(|b.data|);
      OffsetsExact(PushOffset(b, offs[n]), offs[..n]);
      DropMore(PushOffsets(b, offs).data, 4 * n, 4);
    }
  }

  lemma OffsetExact(b: Buf, off: nat)
    requires Aligned(|b.data|, 4) && off <= |b.data|
    ensures var r := PushOffset(b, off);
            |r.data| == |b.data| + 4 && r.minAlign == Max(4, b.minAlign) && r.data[4..] == b.data
  {
    hide PushElement;
    PaddingUnique(|b.data|, 4, 0);
    assert Zeros(0) + b.data == b.data;
    LengthFits(Align(b, 4), ReferTo(Align(b, 4), off));
  }

  // ---------- Tables ----------

  /** A field that is not stored costs nothing; a stored one its width and the least padding. */
  lemma FieldLeast(st: Builder, f: Field)
    requires f.WellFormed() && (f.Ref? ==> f.target <= |st.buf.data|)
    ensures var r := AddField(st, f);
            if f.Elided(st.forceDefaults) then r == st
            else Tight(st.buf, f.Width(), f.Width(), r.buf)
                 && r.fields == st.fields + [FieldLoc(|r.buf.data|, f.id)]
  {
    hide PushElement, Tight, Padding, Aligned;
    if f.Scalar? {
      ScalarLeast(st.buf, f.width, f.value);
    } else if f.target != 0 {
      PushOffsetLeast(st.buf, f.target);
    }
  }

  lemma PushOffsetLeast(b: Buf, off: nat)
    requires off <= |b.data|
    ensures Tight(b, 4, 4, PushOffset(b, off))
  {
    hide PushElement, Padding;
    var padded := Align(b, 4);
    OffsetExact(padded, off);
    AlignTwice(b, 4);
    PaddingPastWord(|b.data|, 4);
    LengthFits(padded, ReferTo(padded, off));
    TightIs(b, 4, 4, PushOffset(b, off));
  }

  /** The alignment after some fields is the greatest of what it was and the widths of those stored. */
  lemma {:induction false} FieldsAlignment(st: Builder, fs: seq<Field>, a: nat)
    requires AllWellFormed(fs, |st.buf.data|)
    ensures AddFields(st, fs).buf.minAlign <= a <==>
              && st.buf.minAlign <= a
              && forall i :: 0 <= i < |fs| && !fs[i].Elided(st.forceDefaults) ==> fs[i].Width() <= a
    decreases |fs|
  {
    hide AddField;
    if fs != [] {
      var n := |fs| - 1;
      FieldsAlignment(st, fs[..n], a);
      FieldLeast(AddFields(st, fs[..n]), fs[n]);
      assert forall i :: 0 <= i < n ==> fs[..n][i] == fs[i];
    }
  }

  /** The largest field id is that of a stored field. */
  lemma {:induction false} LargestId(st: Builder, fs: seq<Field>, id: nat)
    requires AllWellFormed(fs, |st.buf.data|)
    ensures AddFields(st, fs).maxVoffset <= id <==>
              && st.maxVoffset <= id
              && forall i :: 0 <= i < |fs| && !fs[i].Elided(st.forceDefaults) ==> fs[i].id <= id
    decreases |fs|
  {
    if fs != [] {
      var n := |fs| - 1;
      LargestId(st, fs[..n], id);
      FieldTracked(AddFields(st, fs[..n]), fs[n]);
      assert forall i :: 0 <= i < n ==> fs[..n][i] == fs[i];
    }
  }

  lemma FieldTracked(st: Builder, f: Field)
    requires f.WellFormed() && (f.Ref? ==> f.target <= |st.buf.data|)
    ensures AddField(st, f).maxVoffset == if f.Elided(st.forceDefaults) then st.maxVoffset else Max(f.id, st.maxVoffset)
  {
    hide PushElement;
  }

  /** The vtable of the table at `loc` says that it is `size` bytes long and its table `tableSize` bytes. */
  predicate VTableSays(d: bytes, loc: nat, size: nat, tableSize: int) {
    && GetVTable(d, |d| - loc).Ok?
    && var vtable := GetVTable(d, |d| - loc).value;
    && Load(d, vtable, 2) == Ok(size)
    && Load(d, vtable + 2, 2).Ok? && Load(d, vtable + 2, 2).value == tableSize
  }

  /** The vtable of a finished table reaches exactly as far as the last stored field, and names the table's size. */
  lemma VTableLeast(st: Builder, fs: seq<Field>, n: nat) returns (size: nat)
    requires Idle(st) && TableFits(st, fs)
    ensures VTableSays(CreateTable(st, fs).buf.data, TableOffset(st, fs), size, TableOffset(st, fs) - |st.buf.data|)
    ensures size <= n <==>
            4 <= n && forall i :: 0 <= i < |fs| && !fs[i].Elided(st.forceDefaults) ==> fs[i].id + 2 <= n
  {
    hide EndTable, AddFields, CanEnd, Endable, NewVTable, UsedVTable, AllWellFormed, DistinctIds, GetVTable,
         Load, Stored, Tracks, TableLoc, UsesVTable, StartTable, DescribesTable, Entry;
    AddedFieldsEndable(st, fs);
    var added, start := AddedFields(st, fs), |st.buf.data|;
    var d, vt := CreateTable(st, fs).buf.data, NewVTable(added, start);
    EndTableUsesVTable(added, start);
    NewVTableDescribes(added, start);
    FirstEntries(vt, added.fields, start, TableLoc(added));
    VTableWords(d, TableLoc(added), UsedVTable(added, start), vt);
    StartIsFresh(st);
    size := |vt|;
    if n >= 4 { LargestId(StartTable(st), fs, n - 2); }
  }

  lemma StartIsFresh(st: Builder)
    requires Idle(st)
    ensures var r := StartTable(st);
            r.maxVoffset == 0 && r.buf == st.buf && r.forceDefaults == st.forceDefaults && r.vtables == st.vtables
  {
  }

  lemma FirstEntries(vt: bytes, fields: seq<FieldLoc>, start: nat, loc: nat)
    requires DescribesTable(vt, fields, start, loc)
    ensures |vt| >= 4 && Entry(vt, 0) == |vt| && Entry(vt, 2) == loc - start
  {
  }

  /**
   A finished table is as long as its fields, its first word and, if it is new, its vtable;
   the alignment on record is the greatest of what it was, four, and the stored widths.
   */
  lemma TableLeast(st: Builder, fs: seq<Field>, a: nat)
    requires Idle(st) && TableFits(st, fs)
    ensures var r, added := CreateTable(st, fs), AddedFields(st, fs);
            && Tight(added.buf, 4, 4, Buf(r.buf.data[|r.buf.data| - TableOffset(st, fs)..], Max(4, added.buf.minAlign)))
            && |r.buf.data|
               == TableOffset(st, fs) + (if r.vtables == st.vtables then 0 else VTableSize(added.maxVoffset))
            && (r.buf.minAlign <= a <==>
                  && st.buf.minAlign <= a && 4 <= a
                  && forall i :: 0 <= i < |fs| && !fs[i].Elided(st.forceDefaults) ==> fs[i].Width() <= a)
  {
    hide EndTable, AddFields, CanEnd, Endable, AllWellFormed, DistinctIds, PushElement, Stored, Tracks, StartTable;
    AddedFieldsEndable(st, fs);
    var added := AddedFields(st, fs);
    StartIsFresh(st);
    FieldsAlignment(StartTable(st), fs, a);
    ScalarLeast(added.buf, 4, 0);
    EndTableSizes(added, |st.buf.data|);
    var d := CreateTable(st, fs).buf.data;
    TightSame(added.buf, 4, 4, TableObject(added.buf), Buf(d[|d| - TableOffset(st, fs)..], Max(4, added.buf.minAlign)));
  }

  /** Tightness does not depend on the bytes of the object itself. */
  lemma TightSame(b: Buf, n: nat, a: nat, r: Buf, other: Buf)
    requires Tight(b, n, a, r) && |other.data| == |r.data| && other.minAlign == r.minAlign
    requires n <= |r.data| && other.data[n..] == r.data[n..]
    ensures Tight(b, n, a, other)
  {
  }

  lemma VTableWords(d: bytes, loc: nat, u: nat, vt: bytes)
    requires UsesVTable(d, loc, u, vt) && |vt| >= 4
    ensures GetVTable(d, |d| - loc) == Ok(|d| - u)
    ensures Load(d, |d| - u, 2) == Ok(Entry(vt, 0)) && Load(d, |d| - u + 2, 2) == Ok(Entry(vt, 2))
  {
    TableRoundTrip.SliceOfSlice(d, |d| - u, |vt|, 0);
    TableRoundTrip.SliceOfSlice(d, |d| - u, |vt|, 2);
  }

  lemma EndTableSizes(st: Builder, start: nat)
    requires CanEnd(st, start) && VTablesWritten(st)
    ensures var r := EndTable(st, start);
            && |r.buf.data| == TableLoc(st) + (if r.vtables == st.vtables then 0 else VTableSize(st.maxVoffset))
            && r.buf.minAlign == Max(4, st.buf.minAlign)
            && r.buf.data[|r.buf.data| - TableLoc(st)..][4..] == TableObject(st.buf).data[4..]
  {
    hide NewVTable, UsedVTable, SharedVTable, LoadSigned, LoadBytes, ToLE, Unsigned, CanEnd;
    if SharedVTable(st, start).None? { assert |EndTable(st, start).vtables| == |st.vtables| + 1; }
    var d := EndTable(st, start).buf.data;
    DropMore(d, |d| - TableLoc(st), 4);
  }

  // ---------- The whole buffer ----------

  /** Finishing pads to the alignment on record, or to four if that is more, and adds the root's offset. */
  lemma FinishLeast(b: Buf, root: nat)
    requires IsAlign(b.minAlign) && root <= |b.data|
    ensures Tight(b, 4, Max(4, b.minAlign), FinishBuf(b, root))
  {
    hide PushOffset, Tight, Padding, Aligned;
    var a, r := b.minAlign, FinishBuf(b, root);
    var first := PreAlign(b, 4, a);
    PreAligned(b, 4, a);
    if a >= 4 {
      AlignedWeaker(|first.data| + 4, a, 4);
      AlignedLess4(|first.data|);
      OffsetExact(first, root);
      TightIs(b, 4, a, r);
    } else {
      PushOffsetLeast(first, root);
      TightSize(first, 4, 4, r);
      var p, q := Padding(|b.data| + 4, a), Padding(|first.data| + 4, 4);
      assert |first.data| + 4 == |b.data| + 4 + p;
      TwicePadded(|b.data| + 4, a, 4);
      ZerosJoin(q, p, b.data);
      TightIs(b, 4, 4, r);
    }
  }

  lemma TightSize(b: Buf, n: nat, a: nat, r: Buf)
    requires a > 0 && Tight(b, n, a, r)
    ensures n <= |r.data| && r.data[n..] == Zeros(Padding(|b.data| + n, a)) + b.data && r.minAlign == Max(a, b.minAlign)
  {
    hide Padding, Aligned;
    PaddingLeast(|b.data| + n, a, |r.data| - |b.data| - n);
    assert Aligned(|b.data| + n + Padding(|b.data| + n, a), a);
  }
}
