/**
 The lists FlatBufferBuilder keeps as bytes in the scratch part of its buffer: remembered
 vtables and the offsets of a vector's strings (4 bytes each), and FieldLoc records (8).
 */
module ScratchLists {
  import opened Bytes
  import opened BuilderModel

  function EncodeOffsets(vs: seq<nat>): (s: bytes)
    ensures |s| == 4 * |vs|
    decreases |vs|
  {
    if vs == [] then []
    else
      var n := |vs| - 1;
      EncodeOffsets(vs[..n]) + ToLE(vs[n], 4)
  }

  /** `struct FieldLoc { uoffset_t off; voffset_t id; }`, two bytes of padding at the end. */
  function FieldRecord(f: FieldLoc): (s: bytes)
    ensures |s| == 8
  {
    ToLE(f.off, 4) + ToLE(f.id, 2) + Zeros(2)
  }

  function EncodeFields(fs: seq<FieldLoc>): (s: bytes)
    ensures |s| == 8 * |fs|
    decreases |fs|
  {
    if fs == [] then []
    else
      var n := |fs| - 1;
      EncodeFields(fs[..n]) + FieldRecord(fs[n])
  }

  lemma EncodeOffsetsPush(vs: seq<nat>, v: nat)
    ensures EncodeOffsets(vs + [v]) == EncodeOffsets(vs) + ToLE(v, 4)
  {
    assert (vs + [v])[..|vs|] == vs;
  }

  lemma EncodeFieldsPush(fs: seq<FieldLoc>, f: FieldLoc)
    ensures EncodeFields(fs + [f]) == EncodeFields(fs) + FieldRecord(f)
  {
    assert (fs + [f])[..|fs|] == fs;
  }

  /** Offset i is read back from its 4 bytes. */
  lemma {:induction false} OffsetAt(vs: seq<nat>, i: nat)
    requires i < |vs| && vs[i] < Pow256(4)
    ensures FromLE(EncodeOffsets(vs)[4 * i..4 * i + 4]) == vs[i]
    decreases |vs|
  {
    var n := |vs| - 1;
    var s := EncodeOffsets(vs);
    if i < n {
      OffsetAt(vs[..n], i);
      assert s[4 * i..4 * i + 4] == EncodeOffsets(vs[..n])[4 * i..4 * i + 4];
    } else {
      LoadStoredFits(vs[n], 4);
      assert s[4 * i..4 * i + 4] == ToLE(vs[n], 4);
    }
  }

  lemma RecordParts(f: FieldLoc)
    requires f.off < Pow256(4) && f.id < Pow256(2)
    ensures FromLE(FieldRecord(f)[0..4]) == f.off && FromLE(FieldRecord(f)[4..6]) == f.id
  {
    hide FromLE, ToLE;
    LoadStoredFits(f.off, 4);
    LoadStoredFits(f.id, 2);
    assert FieldRecord(f)[0..4] == ToLE(f.off, 4);
    assert FieldRecord(f)[4..6] == ToLE(f.id, 2);
  }

  lemma Slice(x: bytes, y: bytes, i: nat, j: nat)
    requires i <= j <= |y|
    ensures (x + y)[|x| + i..|x| + j] == y[i..j]
  {
  }

  lemma SliceFront(x: bytes, y: bytes, i: nat, j: nat)
    requires i <= j <= |x|
    ensures (x + y)[i..j] == x[i..j]
  {
  }

  /** Field record i lies at its 8 bytes. */
  lemma {:induction false} RecordAt(fs: seq<FieldLoc>, i: nat)
    requires i < |fs|
    ensures EncodeFields(fs)[8 * i..8 * i + 8] == FieldRecord(fs[i])
    decreases |fs|
  {
    hide FieldRecord;
    var n := |fs| - 1;
    var before := EncodeFields(fs[..n]);
    if i < n {
      RecordAt(fs[..n], i);
      SliceFront(before, FieldRecord(fs[n]), 8 * i, 8 * i + 8);
    } else {
      Slice(before, FieldRecord(fs[n]), 0, 8);
      assert FieldRecord(fs[n])[0..8] == FieldRecord(fs[n]);
    }
  }
}
